# PeopleLand v1 subgraph mapping, modelled in Dafny

This project models `src/mapping.ts` of the PeopleLand v1 subgraph. The file is the event-driven core that keeps two entity tables in step with the PeopleLand contract:

- **TokenInfo**: one record per land cell, keyed by `"{x}-{y}"`.
- **People**: one record per address, keyed by the address's hex string. Each record holds a `lands` list that is used as a set.

Four handlers update the tables: `handleMint`, `handleGiveTo`, `handleTransfer` and `handleSetSlogan`. They are built from the helpers `getLandId`, `getPeople`, `addPeopleLand` and `removePeopleLand`.

Modules, one per concern:

- `LandLists` (lands.dfy): the list operations the helpers apply to `lands`. These are `findIndex` (`IndexOf`), the guarded `push` (`AddLand`), the guarded `splice` (`RemoveLand`) and the neighbour filter (`Present`).
- `Keys` (keys.dfy): `getLandId` (`LandId`), with a parser that inverts it. Also addresses, `toHexString` (`HexString`) and the zero address.
- `Schema` (schema.dfy): the records, the four events, the contract's view functions and the store `State`.
- `Handlers` (handlers.dfy): each handler as a function from the store before the event to the store after it. The lemmas there state what each handler guarantees.
- `Consistency` (consistency.dfy): invariants of the store that the handlers preserve, and the self-transfer finding below.
- `Mapping` (mapping.dfy): class `Store`, which holds the two tables as fields. Its methods follow the handlers statement by statement, updating the tables in place. Each method is proved to produce the store its `Handlers` function describes.

Loads are value copies. `addPeopleLand` and `removePeopleLand` test and save the copy the caller passes in, as the mapping code does. An entity's id is the key it is stored under. So a People record is stored as its `lands` list, and a TokenInfo record's id is its map key. Contract reads (`getTokenId`, `tokenURI`, `land(x, y).slogan`, `getNeighborsParams`, `getCoordinates`) are calls into code outside the model. They are passed to the handlers as a `Contract` value holding those functions.

The model follows the code as written; in particular:

- `handleGiveTo` does not remove the land from the previous owner's list.
- `handleGiveTo` overwrites `givedAt*` on every grant.
- `handleTransfer` always asks the contract for the coordinates.
- Transfers to and from the zero address update the zero address's list like any other.
- A missing TokenInfo in `handleGiveTo` and `handleSetSlogan` is dereferenced, not reported. The model therefore makes its presence a precondition of those handlers.

The model proves that after every handler except a transfer to oneself (see Findings), the owner of a land, unless that owner is the zero address, lists the land (`Consistency.OwnerListsLand`). It does not claim the reverse direction, that a land is listed only under its current owner. After `handleGiveTo` the previous owner can still list the land.

## Model

| member | source | states |
|---|---|---|
| LandLists.IndexOf | src/mapping.ts:28 | `findIndex`: -1 exactly when the id is absent, otherwise a position holding it with no earlier occurrence |
| LandLists.AddLand | src/mapping.ts:33-38 | afterwards the id is in the list; if it was there nothing changes; otherwise it is appended at the end with the earlier entries untouched; a duplicate-free list stays duplicate-free |
| LandLists.RemoveLand | src/mapping.ts:26-31 | an absent id leaves the list unchanged; a present one shortens it by exactly one |
| LandLists.RemoveLandOrder | src/mapping.ts:28 | the entries before the first occurrence stay in place and those after it move up by one, so relative order is kept |
| LandLists.RemoveLandMultiset | src/mapping.ts:26-31 | exactly one occurrence of the id is removed and nothing else |
| LandLists.RemoveLandKeepsOthers | src/mapping.ts:26-31 | every other id is in the list afterwards exactly when it was before |
| LandLists.RemoveLandNoDup | src/mapping.ts:26-31 | on a duplicate-free list the result is duplicate-free and no longer holds the id |
| LandLists.Present | src/mapping.ts:82-83 | the filtered neighbours are exactly the non-null entries, and there are no more of them than entries |
| LandLists.PresentSingleton | src/mapping.ts:83 | a non-null neighbour is kept as it is and a null one is dropped |
| LandLists.PresentAppend | src/mapping.ts:83 | the filter distributes over concatenation, so it keeps the order and the repeats of the non-null neighbours |
| Keys.NatText | src/mapping.ts:14 | decimal text of a natural number is non-empty and all digits |
| Keys.IntText | src/mapping.ts:14 | `BigInt.toString` starts with '-' exactly for negative values and is digits after that |
| Keys.IntTextRoundTrip | src/mapping.ts:14 | reading the decimal text of an integer back gives the integer |
| Keys.ParseLandIdRoundTrip | src/mapping.ts:13-15 | the land id of (x, y) parses back to (x, y), negative coordinates included |
| Keys.LandId | src/mapping.ts:13-15 | the land id is the decimal x, a '-', then the decimal y, and that '-' is the first one after the leading character, which is where the id is split when read back |
| Keys.LandIdInjective | src/mapping.ts:13-15 | distinct coordinate pairs have distinct land ids |
| Keys.HexDigit | src/mapping.ts:18 | address hex digits are lower-case hexadecimal |
| Keys.HexString | src/mapping.ts:18 | the People id of an address is "0x" followed by two lower-case hex digits per byte |
| Keys.HexStringInjective | src/mapping.ts:18-20 | distinct addresses have distinct People ids |
| Keys.ZeroAddressKey | src/mapping.ts:11 | the People id of the zero address is "0x" followed by forty zeros |
| Handlers.LoadOrCreate | src/mapping.ts:17-24 | after `getPeople` the record exists; existing records are unchanged; a created record has no lands |
| Schema.NewTokenInfo | src/mapping.ts:98-102 | a created land record carries the event's x and y and `createdAt*` from the event's block; every field a grant or a mint sets is still unset |
| Handlers.SaveAdd | src/mapping.ts:33-38 | `addPeopleLand` saves the caller's copy with the id appended only when that copy lacks it, and leaves every other People record unchanged |
| Handlers.SaveRemove | src/mapping.ts:26-31 | `removePeopleLand` saves the caller's copy with its first occurrence of the id spliced out (`RemoveLand`) only when that copy holds the id, and leaves every other People record unchanged |
| Handlers.MintStep | src/mapping.ts:40-57 | `handleMint`: afterwards the land has a record and no record is dropped; its full effect is stated by MintExistingEffect, MintNewEffect and MintIdempotent, and MintPreservesConsistency shows it keeps the store consistent |
| Handlers.GiveToStep | src/mapping.ts:59-85 | `handleGiveTo`: the set of land records is unchanged and the land is owned by the recipient; GiveToTokenEffect, GiveToPeopleEffect and GiveToPreservesConsistency state the rest |
| Handlers.TransferStep | src/mapping.ts:87-112 | `handleTransfer` as written: the land at the contract's coordinates has a record owned by the recipient; TransferTokenEffect, TransferPeopleEffect, TransferPreservesConsistency and SelfTransferUnlistsLand state the rest |
| Handlers.TransferStepFixed | src/mapping.ts:104-111 | the corrected `handleTransfer`: the land has a record owned by the recipient; TransferFixedAgrees, TransferFixedListsLand and TransferFixedPreservesConsistency state the rest |
| Handlers.SetSloganStep | src/mapping.ts:114-119 | `handleSetSlogan`: the People table and the set of land records are unchanged; SetSloganEffect and SetSloganPreservesConsistency state the rest |
| Handlers.MintExistingEffect | src/mapping.ts:46-56 | a Mint for a land that already has a record leaves the whole store unchanged |
| Handlers.MintNewEffect | src/mapping.ts:40-57 | a new land record has the event's x and y, the minter as `minted`, the zero address as owner and `createdAt*` from the event's block; minter and zero-address People records exist with no lands; no existing People record changes |
| Handlers.MintIdempotent | src/mapping.ts:40-57 | replaying a Mint leaves the store as after the first |
| Handlers.GiveToTokenEffect | src/mapping.ts:59-85 | the recipient is the owner; token id, URI, slogan and `givedAt*` come from the contract and the event; the neighbours are the contract's list with the nulls filtered out, in order (`Present`); x, y, `minted` and `createdAt*` are unchanged; other lands are unchanged |
| Handlers.GiveToPeopleEffect | src/mapping.ts:67-70 | the recipient's list holds the land, appended to what it had; no other People record changes |
| Handlers.TransferTokenEffect | src/mapping.ts:87-107 | a record exists at the contract's coordinates, owned by the recipient; an existing record keeps all other fields, `createdAt*` included; a new one gets this event's block and no minter |
| Handlers.TransferPeopleEffect | src/mapping.ts:104-111 | between distinct addresses the sender's list (empty if new) loses the first occurrence of the land and the recipient's list (empty if new) gets it appended unless present; so the land ends up listed under the recipient and, on a duplicate-free list, no longer under the sender; third parties are untouched |
| Handlers.SetSloganEffect | src/mapping.ts:114-119 | only the slogan of the land changes, to the event's; no other field, land record or People record changes |
| Consistency.MintPreservesConsistency | src/mapping.ts:40-57 | Mint keeps the store consistent (records keyed by their coordinates, lists duplicate-free, owners and minters recorded, owners list their lands) |
| Consistency.GiveToPreservesConsistency | src/mapping.ts:59-85 | GiveTo keeps the store consistent |
| Consistency.SetSloganPreservesConsistency | src/mapping.ts:114-119 | SetSlogan keeps the store consistent |
| Consistency.TransferPreservesConsistency | src/mapping.ts:87-112 | Transfer between distinct addresses keeps the store consistent |
| Consistency.SelfTransferUnlistsLand | src/mapping.ts:104-111 | as written, a transfer to oneself of a listed land leaves it owned but unlisted, breaking `OwnerListsLand` |
| Consistency.TransferFixedPreservesConsistency | src/mapping.ts:104-111 | the corrected Transfer keeps the store consistent for every transfer |
| Consistency.TransferFixedListsLand | src/mapping.ts:104-111 | the corrected Transfer always leaves the land listed under the recipient |
| Consistency.TransferFixedAgrees | src/mapping.ts:104-111 | between distinct addresses the corrected Transfer is the Transfer as written |
| Mapping.Store.GetPeople | src/mapping.ts:17-24 | returns the record keyed by the address hex; an existing one is returned and left unchanged; otherwise an empty one is created and saved |
| Mapping.Store.RemovePeopleLand | src/mapping.ts:26-31 | the caller's copy loses the first occurrence of the id and is saved only if it held it |
| Mapping.Store.AddPeopleLand | src/mapping.ts:33-38 | the caller's copy gets the id appended and is saved only if it lacked it |
| Mapping.Store.HandleMint | src/mapping.ts:40-57 | the new store is `MintStep` of the old one, and consistency is preserved |
| Mapping.Store.HandleGiveTo | src/mapping.ts:59-85 | the new store is `GiveToStep` of the old one, and consistency is preserved |
| Mapping.Store.HandleTransfer | src/mapping.ts:87-112 | the new store is `TransferStep` of the old one; consistency is preserved between distinct addresses |
| Mapping.Store.HandleSetSlogan | src/mapping.ts:114-119 | the new store is `SetSloganStep` of the old one, and consistency is preserved |

## Left out

- Event decoding and the generated bindings (src/mapping.ts:2-9). The events are plain datatypes carrying the fields the handlers read.
- Contract calls can revert, and a revert aborts the handler in the indexing host. The `Contract` functions of the model always return.
- `BigInt` and `Address` are modelled as `int` and a sequence of bytes. Addresses are 20 bytes on chain, but the model does not require it.
- The generated `lands` getter returns a fresh array, so on the real host `people.lands.push(..)` does not reach the stored entity. The model treats `lands` as updated in place, as the code is evidently meant to work.
- IndexOf and RemoveLand: `===` in the `findIndex` call (src/mapping.ts:28) is read as value equality, the test `includes` (src/mapping.ts:27) makes, as the code is evidently meant. AssemblyScript compares strings by reference with `===`. Under that reading, a stored id that `includes` finds would give index -1, and `splice(-1, 1)` would drop the last entry instead.
- The host's checks on save are not modelled. Examples are a required field left unset, such as `minted` on a record created by `handleTransfer`, or the `lands` of a freshly created People record. Such fields are `None` or empty in the model.
- Persistence internals and host scheduling. `save` is a whole-record overwrite of the table entry, and handlers run one at a time.
- The unused `log` import.
- Mapping.Store.HandleTransfer: consistency is promised only between distinct addresses, because the code as written breaks it for a transfer to oneself (see Findings).

## Findings

| source | as written | input that shows it | evidently intended | confidence | as-written member | corrected member |
|---|---|---|---|---|---|---|
| src/mapping.ts:104-111 | `owner` is loaded before `from` is loaded, changed and saved; `addPeopleLand(owner, _id)` then tests that stale copy, which still holds the land, and saves nothing | a Transfer from an address to itself of a land already in that address's `lands` | the land stays listed under its owner | not executed; follows from the code as written, reading `lands` as updated in place (on the real host the copy-on-read `lands` getter also keeps the sender's removal from being saved, see Left out) | Consistency.SelfTransferUnlistsLand | Consistency.TransferFixedPreservesConsistency |

`Handlers.TransferStepFixed` is the corrected handler: it reloads the recipient's record after the sender's record is saved. Between distinct addresses it agrees with the code as written (`Consistency.TransferFixedAgrees`). Class `Mapping.Store` follows the code as written.
