/**
 * The handlers of src/mapping.ts over an entity store that they update in
 * place. Each method does what its handler does, load by load and save by
 * save, and is proved to produce the store its `Handlers` step function
 * describes; the properties of those functions are proved in `Handlers` and
 * `Consistency`.
 */
module Mapping {
  import opened Wrappers
  import opened LandLists
  import opened Keys
  import opened Schema
  import opened Handlers
  import opened Consistency

  /** The two entity tables: TokenInfo records by id, and each People record's `lands` by id. */
  class Store {
    var tokens: map<string, TokenInfo>
    var people: map<string, seq<string>>

    constructor ()
      ensures tokens == map[] && people == map[]
      ensures Consistent(Snapshot())
    {
      tokens := map[];
      people := map[];
    }

    function Snapshot(): State
      reads this
    {
      State(tokens, people)
    }

    /** `getPeople`: load the address's People record, creating and saving an empty one if absent. */
    method GetPeople(address: Address) returns (p: People)
      modifies this
      ensures p.id == HexString(address)
      ensures p.id in old(people) ==> people == old(people) && p.lands == old(people)[p.id]
      ensures p.id !in old(people) ==> people == old(people)[p.id := []] && p.lands == []
      ensures people == LoadOrCreate(old(people), p.id) && p.lands == people[p.id]
      ensures tokens == old(tokens)
    {
      var key := HexString(address);
      if key !in people {
        people := people[key := []];
      }
      p := People(key, people[key]);
    }

    /** `removePeopleLand`: splice the first occurrence out of the caller's copy and save it. */
    method RemovePeopleLand(p: People, landId: string) returns (p': People)
      modifies this
      ensures p'.id == p.id && p'.lands == RemoveLand(p.lands, landId)
      ensures landId !in p.lands ==> p' == p && people == old(people)
      ensures landId in p.lands ==> people == old(people)[p.id := p'.lands]
      ensures people == SaveRemove(old(people), p, landId)
      ensures tokens == old(tokens)
    {
      p' := p;
      if landId in p.lands {
        var i := IndexOf(p.lands, landId);
        p' := p.(lands := p.lands[..i] + p.lands[i + 1..]);
        people := people[p'.id := p'.lands];
      }
    }

    /** `addPeopleLand`: push onto the caller's copy unless it already holds the id, and save it. */
    method AddPeopleLand(p: People, landId: string) returns (p': People)
      modifies this
      ensures p'.id == p.id && p'.lands == AddLand(p.lands, landId)
      ensures landId in p.lands ==> p' == p && people == old(people)
      ensures landId !in p.lands ==> people == old(people)[p.id := p.lands + [landId]]
      ensures people == SaveAdd(old(people), p, landId)
      ensures tokens == old(tokens)
    {
      p' := p;
      if landId !in p.lands {
        p' := p.(lands := p.lands + [landId]);
        people := people[p'.id := p'.lands];
      }
    }

    /** `handleMint`. */
    method HandleMint(e: Mint)
      modifies this
      ensures Snapshot() == MintStep(old(Snapshot()), e)
      ensures Consistent(old(Snapshot())) ==> Consistent(Snapshot())
    {
      ghost var s := Snapshot();
      var id := LandId(e.x, e.y);
      var tokenInfo: TokenInfo;
      if id in tokens {
        tokenInfo := tokens[id];
      } else {
        tokenInfo := NewTokenInfo(e.x, e.y, e.block);
        var minter := GetPeople(e.mintedAddress);
        var zeroAddress := ZeroAddress;
        var zero := GetPeople(zeroAddress);
        ZeroAddressKey(zeroAddress);
        tokenInfo := tokenInfo.(minted := Some(minter.id), owner := zero.id);
      }
      tokens := tokens[id := tokenInfo];
      if Consistent(s) {
        MintPreservesConsistency(s, e);
      }
    }

    /** `handleGiveTo`; the handler dereferences the loaded TokenInfo, so it must exist. */
    method HandleGiveTo(e: GiveTo, contract: Contract)
      requires LandId(e.x, e.y) in tokens
      modifies this
      ensures Snapshot() == GiveToStep(old(Snapshot()), e, contract)
      ensures Consistent(old(Snapshot())) ==> Consistent(Snapshot())
    {
      ghost var s := Snapshot();
      var id := LandId(e.x, e.y);
      var tokenInfo := tokens[id];
      var owner := GetPeople(e.givedAddress);
      tokenInfo := tokenInfo.(owner := owner.id);
      owner := AddPeopleLand(owner, id);

      var tokenId := contract.getTokenId(e.x, e.y);
      var tokenURI := contract.tokenURI(tokenId);
      var slogan := contract.landSlogan(e.x, e.y);
      tokenInfo := tokenInfo.(
        tokenId := Some(tokenId),
        tokenSvg := Some(tokenURI),
        slogan := Some(slogan),
        givedAtBlockNumber := Some(e.block.number),
        givedAtTimestamp := Some(e.block.timestamp));

      var neighbors := contract.getNeighborsParams(e.x, e.y);
      tokenInfo := tokenInfo.(neighbors := Some(Present(neighbors)));
      tokens := tokens[id := tokenInfo];
      if Consistent(s) {
        GiveToPreservesConsistency(s, e, contract);
      }
    }

    /**
     * `handleTransfer`, as written: `owner` is loaded before the sender's
     * record is changed and saved, and that copy is what `AddPeopleLand` sees.
     */
    method HandleTransfer(e: Transfer, contract: Contract)
      modifies this
      ensures Snapshot() == TransferStep(old(Snapshot()), e, contract)
      ensures Consistent(old(Snapshot())) && e.from != e.to ==> Consistent(Snapshot())
    {
      ghost var s := Snapshot();
      var coordinates := contract.getCoordinates(e.tokenId);
      var x, y := coordinates.0, coordinates.1;
      var id := LandId(x, y);
      var tokenInfo: TokenInfo;
      if id in tokens {
        tokenInfo := tokens[id];
      } else {
        tokenInfo := NewTokenInfo(x, y, e.block);
      }
      var owner := GetPeople(e.to);
      tokenInfo := tokenInfo.(owner := owner.id);
      tokens := tokens[id := tokenInfo];

      var from := GetPeople(e.from);
      from := RemovePeopleLand(from, id);
      owner := AddPeopleLand(owner, id);
      if Consistent(s) && e.from != e.to {
        TransferPreservesConsistency(s, e, contract);
      }
    }

    /** `handleSetSlogan`; the handler dereferences the loaded TokenInfo, so it must exist. */
    method HandleSetSlogan(e: SetSlogan)
      requires LandId(e.x, e.y) in tokens
      modifies this
      ensures Snapshot() == SetSloganStep(old(Snapshot()), e)
      ensures Consistent(old(Snapshot())) ==> Consistent(Snapshot())
    {
      ghost var s := Snapshot();
      var id := LandId(e.x, e.y);
      var tokenInfo := tokens[id];
      tokenInfo := tokenInfo.(slogan := Some(e.slogan));
      tokens := tokens[id := tokenInfo];
      if Consistent(s) {
        SetSloganPreservesConsistency(s, e);
      }
    }
  }
}
