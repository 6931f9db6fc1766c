/**
 * The four event handlers of src/mapping.ts as functions from the store
 * before an event to the store after it. Each follows its handler statement
 * by statement: a load is a copy of the stored value, and a helper that saves
 * a People record saves the copy the handler passed in, however stale.
 * The `Effect` lemmas state what each handler guarantees.
 */
module Handlers {
  import opened Wrappers
  import opened LandLists
  import opened Keys
  import opened Schema

  /** The People table after `getPeople` for the id `key`: the record exists afterwards. */
  function LoadOrCreate(people: map<string, seq<string>>, key: string): (r: map<string, seq<string>>)
    ensures key in r && r.Keys == people.Keys + {key}
    ensures forall k :: k in people ==> r[k] == people[k]
    ensures key !in people ==> r[key] == []
  {
    if key in people then people else people[key := []]
  }

  /** The People table after `addPeopleLand(p, id)`: `p` is saved only when its own copy lacks `id`. */
  function SaveAdd(people: map<string, seq<string>>, p: People, id: string): (r: map<string, seq<string>>)
    ensures id in p.lands ==> r == people
    ensures id !in p.lands ==> p.id in r && r[p.id] == p.lands + [id]
    ensures r.Keys <= people.Keys + {p.id}
    ensures forall k :: k in people && k != p.id ==> k in r && r[k] == people[k]
  {
    if id in p.lands then people else people[p.id := AddLand(p.lands, id)]
  }

  /** The People table after `removePeopleLand(p, id)`: `p` is saved only when its own copy holds `id`. */
  function SaveRemove(people: map<string, seq<string>>, p: People, id: string): (r: map<string, seq<string>>)
    ensures id !in p.lands ==> r == people
    ensures id in p.lands ==> p.id in r && r[p.id] == RemoveLand(p.lands, id) && |r[p.id]| == |p.lands| - 1
    ensures r.Keys <= people.Keys + {p.id}
    ensures forall k :: k in people && k != p.id ==> k in r && r[k] == people[k]
  {
    if id in p.lands then people[p.id := RemoveLand(p.lands, id)] else people
  }

  /** `handleMint`. */
  function MintStep(s: State, e: Mint): (r: State)
    ensures LandId(e.x, e.y) in r.tokens && s.tokens.Keys <= r.tokens.Keys
  {
    var id := LandId(e.x, e.y);
    if id in s.tokens then s
    else
      var minter := HexString(e.mintedAddress);
      var p1 := LoadOrCreate(s.people, minter);
      var p2 := LoadOrCreate(p1, ZeroKey);
      var t := NewTokenInfo(e.x, e.y, e.block).(minted := Some(minter), owner := ZeroKey);
      State(s.tokens[id := t], p2)
  }

  /** `handleGiveTo`; the handler dereferences the loaded TokenInfo, so it must exist. */
  function GiveToStep(s: State, e: GiveTo, c: Contract): (r: State)
    requires LandId(e.x, e.y) in s.tokens
    ensures r.tokens.Keys == s.tokens.Keys
    ensures r.tokens[LandId(e.x, e.y)].owner == HexString(e.givedAddress)
  {
    var id := LandId(e.x, e.y);
    var key := HexString(e.givedAddress);
    var p1 := LoadOrCreate(s.people, key);
    var owner := People(key, p1[key]);
    var p2 := SaveAdd(p1, owner, id);
    var tokenId := c.getTokenId(e.x, e.y);
    var t := s.tokens[id].(
      owner := owner.id,
      tokenId := Some(tokenId),
      tokenSvg := Some(c.tokenURI(tokenId)),
      slogan := Some(c.landSlogan(e.x, e.y)),
      givedAtBlockNumber := Some(e.block.number),
      givedAtTimestamp := Some(e.block.timestamp),
      neighbors := Some(Present(c.getNeighborsParams(e.x, e.y))));
    State(s.tokens[id := t], p2)
  }

  /** The id of the land a Transfer moves, from the contract's `getCoordinates`. */
  function TransferLandId(e: Transfer, c: Contract): string
  {
    LandId(c.getCoordinates(e.tokenId).0, c.getCoordinates(e.tokenId).1)
  }

  /**
   * `handleTransfer` as written: the recipient's copy `owner` is loaded before
   * the sender's record is loaded, changed and saved, and it is that earlier
   * copy that `addPeopleLand` tests and saves.
   */
  function TransferStep(s: State, e: Transfer, c: Contract): (r: State)
    ensures TransferLandId(e, c) in r.tokens && r.tokens[TransferLandId(e, c)].owner == HexString(e.to)
  {
    var x, y := c.getCoordinates(e.tokenId).0, c.getCoordinates(e.tokenId).1;
    var id := LandId(x, y);
    var t := if id in s.tokens then s.tokens[id] else NewTokenInfo(x, y, e.block);
    var toKey := HexString(e.to);
    var p1 := LoadOrCreate(s.people, toKey);
    var owner := People(toKey, p1[toKey]);
    var tokens := s.tokens[id := t.(owner := owner.id)];
    var fromKey := HexString(e.from);
    var p2 := LoadOrCreate(p1, fromKey);
    var from := People(fromKey, p2[fromKey]);
    var p3 := SaveRemove(p2, from, id);
    State(tokens, SaveAdd(p3, owner, id))
  }

  /**
   * `handleTransfer` with the recipient's record loaded again after the
   * sender's record is saved, so that a transfer to oneself keeps the land.
   */
  function TransferStepFixed(s: State, e: Transfer, c: Contract): (r: State)
    ensures TransferLandId(e, c) in r.tokens && r.tokens[TransferLandId(e, c)].owner == HexString(e.to)
  {
    var x, y := c.getCoordinates(e.tokenId).0, c.getCoordinates(e.tokenId).1;
    var id := LandId(x, y);
    var t := if id in s.tokens then s.tokens[id] else NewTokenInfo(x, y, e.block);
    var toKey := HexString(e.to);
    var p1 := LoadOrCreate(s.people, toKey);
    var tokens := s.tokens[id := t.(owner := toKey)];
    var fromKey := HexString(e.from);
    var p2 := LoadOrCreate(p1, fromKey);
    var p3 := SaveRemove(p2, People(fromKey, p2[fromKey]), id);
    State(tokens, SaveAdd(p3, People(toKey, p3[toKey]), id))
  }

  /** `handleSetSlogan`; the handler dereferences the loaded TokenInfo, so it must exist. */
  function SetSloganStep(s: State, e: SetSlogan): (r: State)
    requires LandId(e.x, e.y) in s.tokens
    ensures r.people == s.people && r.tokens.Keys == s.tokens.Keys
  {
    var id := LandId(e.x, e.y);
    State(s.tokens[id := s.tokens[id].(slogan := Some(e.slogan))], s.people)
  }

  /** A Mint for a land that already has a record changes nothing. */
  lemma MintExistingEffect(s: State, e: Mint)
    requires LandId(e.x, e.y) in s.tokens
    ensures MintStep(s, e) == s
  {
  }

  /**
   * A Mint for a land without a record creates it, owned by the zero address
   * and minted by the minter, in the event's block; it creates the minter's
   * and the zero address's People records with no lands and changes no
   * existing People record.
   */
  lemma MintNewEffect(s: State, e: Mint)
    requires LandId(e.x, e.y) !in s.tokens
    ensures var r, id, minter := MintStep(s, e), LandId(e.x, e.y), HexString(e.mintedAddress);
      && r.tokens == s.tokens[id := TokenInfo(e.x, e.y, Some(minter), ZeroKey,
                                              None, None, None, None, e.block.timestamp, e.block.number, None, None)]
      && r.people.Keys == s.people.Keys + {minter, ZeroKey}
      && (forall k :: k in s.people ==> r.people[k] == s.people[k])
      && (forall k :: k in r.people && k !in s.people ==> r.people[k] == [])
  {
    var minter := HexString(e.mintedAddress);
    var p1 := LoadOrCreate(s.people, minter);
    var p2 := LoadOrCreate(p1, ZeroKey);
    assert MintStep(s, e).people == p2;
    assert p2.Keys == s.people.Keys + {minter, ZeroKey};
  }

  /** Replaying a Mint changes nothing. */
  lemma MintIdempotent(s: State, e: Mint)
    ensures MintStep(MintStep(s, e), e) == MintStep(s, e)
  {
    if LandId(e.x, e.y) in s.tokens {
      MintExistingEffect(s, e);
    } else {
      MintNewEffect(s, e);
    }
  }

  /**
   * A GiveTo makes the recipient the owner, records the contract's token id,
   * token URI, slogan and present neighbours and the grant's block, and keeps
   * the coordinates, the minter and the creation block.
   */
  lemma GiveToTokenEffect(s: State, e: GiveTo, c: Contract)
    requires LandId(e.x, e.y) in s.tokens
    ensures var r, id := GiveToStep(s, e, c), LandId(e.x, e.y);
      var t, t' := s.tokens[id], r.tokens[id];
      var tokenId := c.getTokenId(e.x, e.y);
      && r.tokens.Keys == s.tokens.Keys
      && (forall k :: k in s.tokens && k != id ==> r.tokens[k] == s.tokens[k])
      && t'.owner == HexString(e.givedAddress)
      && t'.tokenId == Some(tokenId)
      && t'.tokenSvg == Some(c.tokenURI(tokenId))
      && t'.slogan == Some(c.landSlogan(e.x, e.y))
      && t'.givedAtBlockNumber == Some(e.block.number)
      && t'.givedAtTimestamp == Some(e.block.timestamp)
      && t'.neighbors == Some(Present(c.getNeighborsParams(e.x, e.y)))
      && t'.x == t.x && t'.y == t.y && t'.minted == t.minted
      && t'.createdAtBlockNumber == t.createdAtBlockNumber
      && t'.createdAtTimestamp == t.createdAtTimestamp
  {
  }

  /**
   * A GiveTo lists the land under the recipient, appended after the lands it
   * already had, and touches no other People record; in particular it never
   * removes the land from the previous owner.
   */
  lemma GiveToPeopleEffect(s: State, e: GiveTo, c: Contract)
    requires LandId(e.x, e.y) in s.tokens
    ensures var r, id, key := GiveToStep(s, e, c), LandId(e.x, e.y), HexString(e.givedAddress);
      && key in r.people && id in r.people[key]
      && (key in s.people ==> r.people[key] == AddLand(s.people[key], id))
      && (key !in s.people ==> r.people[key] == [id])
      && r.people.Keys == s.people.Keys + {key}
      && (forall k :: k in s.people && k != key ==> r.people[k] == s.people[k])
  {
  }

  /**
   * A Transfer leaves a record at the coordinates the contract reports, owned
   * by the recipient; a record that existed keeps every other field, the
   * creation block included, and a new one is created in this event's block
   * with no minter.
   */
  lemma TransferTokenEffect(s: State, e: Transfer, c: Contract)
    ensures var r, id := TransferStep(s, e, c), TransferLandId(e, c);
      var x, y := c.getCoordinates(e.tokenId).0, c.getCoordinates(e.tokenId).1;
      && r.tokens.Keys == s.tokens.Keys + {id}
      && (forall k :: k in s.tokens && k != id ==> r.tokens[k] == s.tokens[k])
      && r.tokens[id].owner == HexString(e.to)
      && (id in s.tokens ==> r.tokens[id] == s.tokens[id].(owner := HexString(e.to)))
      && (id !in s.tokens ==> r.tokens[id] == NewTokenInfo(x, y, e.block).(owner := HexString(e.to)))
  {
  }

  /**
   * Between two distinct addresses a Transfer moves the land: the sender's
   * list loses its first occurrence, the recipient's list gets it appended
   * unless present, and every other entry of both lists stays. Afterwards it
   * is listed under the recipient and, when the sender's list was
   * duplicate-free, no longer under the sender. Records of third parties are
   * untouched.
   */
  lemma TransferPeopleEffect(s: State, e: Transfer, c: Contract)
    requires e.from != e.to
    ensures var r, id := TransferStep(s, e, c), TransferLandId(e, c);
      var toKey, fromKey := HexString(e.to), HexString(e.from);
      && r.people.Keys == s.people.Keys + {toKey, fromKey}
      && r.people[fromKey] == (if fromKey in s.people then RemoveLand(s.people[fromKey], id) else [])
      && r.people[toKey] == (if toKey in s.people then AddLand(s.people[toKey], id) else [id])
      && id in r.people[toKey]
      && (fromKey in s.people && NoDup(s.people[fromKey]) ==> id !in r.people[fromKey])
      && (forall k :: k in s.people && k != toKey && k != fromKey ==> r.people[k] == s.people[k])
  {
    var id, toKey, fromKey := TransferLandId(e, c), HexString(e.to), HexString(e.from);
    if toKey == fromKey {
      HexStringInjective(e.to, e.from);
    }
    var p1 := LoadOrCreate(s.people, toKey);
    var p2 := LoadOrCreate(p1, fromKey);
    var p3 := SaveRemove(p2, People(fromKey, p2[fromKey]), id);
    assert TransferStep(s, e, c).people == SaveAdd(p3, People(toKey, p1[toKey]), id);
    assert p3[toKey] == p1[toKey];
    if fromKey in s.people && NoDup(s.people[fromKey]) {
      RemoveLandNoDup(s.people[fromKey], id);
    }
  }

  /**
   * A SetSlogan changes the land's slogan to the event's and nothing else:
   * no other field of that record, no other record, no People record.
   */
  lemma SetSloganEffect(s: State, e: SetSlogan)
    requires LandId(e.x, e.y) in s.tokens
    ensures var r, id := SetSloganStep(s, e), LandId(e.x, e.y);
      && r.people == s.people
      && r.tokens.Keys == s.tokens.Keys
      && (forall k :: k in s.tokens && k != id ==> r.tokens[k] == s.tokens[k])
      && r.tokens[id].slogan == Some(e.slogan)
      && r.tokens[id].(slogan := s.tokens[id].slogan) == s.tokens[id]
  {
  }
}
