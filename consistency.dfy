/**
 * Invariants of the store that the handlers keep. The central one is that
 * the owner of a land, unless it is the zero address, lists that land
 * (`OwnerListsLand`). It is not claimed that a land is listed only under its
 * owner: `handleGiveTo` never removes a land from the previous owner's list.
 */
module Consistency {
  import opened LandLists
  import opened Keys
  import opened Schema
  import opened Handlers

  /** Every land record is stored under the id of its own coordinates. */
  predicate KeyedByCoordinates(s: State)
  {
    forall k :: k in s.tokens ==> k == LandId(s.tokens[k].x, s.tokens[k].y)
  }

  /** Every `lands` list is a set: no id occurs twice. */
  predicate ListsDuplicateFree(people: map<string, seq<string>>)
  {
    forall k :: k in people ==> NoDup(people[k])
  }

  /** The owner and the minter a land record names have People records. */
  predicate OwnersExist(s: State)
  {
    forall k :: k in s.tokens ==>
      && s.tokens[k].owner in s.people
      && (s.tokens[k].minted.Some? ==> s.tokens[k].minted.value in s.people)
  }

  /** A land whose owner is not the zero address is in that owner's `lands`. */
  predicate OwnerListsLand(s: State)
  {
    forall k :: k in s.tokens && s.tokens[k].owner != ZeroKey ==>
      s.tokens[k].owner in s.people && k in s.people[s.tokens[k].owner]
  }

  predicate Consistent(s: State)
  {
    KeyedByCoordinates(s) && ListsDuplicateFree(s.people) && OwnersExist(s) && OwnerListsLand(s)
  }

  lemma SaveAddNoDup(people: map<string, seq<string>>, p: People, id: string)
    requires ListsDuplicateFree(people) && NoDup(p.lands)
    ensures ListsDuplicateFree(SaveAdd(people, p, id))
  {
  }

  lemma SaveRemoveNoDup(people: map<string, seq<string>>, p: People, id: string)
    requires ListsDuplicateFree(people) && NoDup(p.lands)
    ensures ListsDuplicateFree(SaveRemove(people, p, id))
  {
    RemoveLandNoDup(p.lands, id);
  }

  /**
   * The store stays consistent when one land record `id` is rewritten (still
   * keyed by its coordinates, its owner listing it) while every list keeps
   * each land other than `id` it held and stays duplicate-free.
   */
  lemma UpdateKeepsConsistency(s: State, r: State, id: string)
    requires Consistent(s)
    requires id in r.tokens && r.tokens == s.tokens[id := r.tokens[id]]
    requires id == LandId(r.tokens[id].x, r.tokens[id].y)
    requires r.tokens[id].owner in r.people
    requires r.tokens[id].minted.Some? ==> r.tokens[id].minted.value in r.people
    requires r.tokens[id].owner != ZeroKey ==> id in r.people[r.tokens[id].owner]
    requires ListsDuplicateFree(r.people)
    requires forall o :: o in s.people ==> o in r.people
    requires forall o, k :: o in s.people && k in s.people[o] && k != id ==> k in r.people[o]
    ensures Consistent(r)
  {
  }

  lemma MintPreservesConsistency(s: State, e: Mint)
    requires Consistent(s)
    ensures Consistent(MintStep(s, e))
  {
    var id := LandId(e.x, e.y);
    if id !in s.tokens {
      MintNewEffect(s, e);
      UpdateKeepsConsistency(s, MintStep(s, e), id);
    }
  }

  lemma GiveToPreservesConsistency(s: State, e: GiveTo, c: Contract)
    requires Consistent(s) && LandId(e.x, e.y) in s.tokens
    ensures Consistent(GiveToStep(s, e, c))
  {
    var r, id, key := GiveToStep(s, e, c), LandId(e.x, e.y), HexString(e.givedAddress);
    GiveToTokenEffect(s, e, c);
    GiveToPeopleEffect(s, e, c);
    var p1 := LoadOrCreate(s.people, key);
    SaveAddNoDup(p1, People(key, p1[key]), id);
    assert ListsDuplicateFree(r.people);
    UpdateKeepsConsistency(s, r, id);
  }

  lemma SetSloganPreservesConsistency(s: State, e: SetSlogan)
    requires Consistent(s) && LandId(e.x, e.y) in s.tokens
    ensures Consistent(SetSloganStep(s, e))
  {
    SetSloganEffect(s, e);
    UpdateKeepsConsistency(s, SetSloganStep(s, e), LandId(e.x, e.y));
  }

  /**
   * The People table after the removal from `from` and the addition to the
   * copy `owner`, both taken from `p2`, when the two are different records:
   * duplicate-free, and every other land stays listed.
   */
  lemma MoveKeepsLists(people: map<string, seq<string>>, p2: map<string, seq<string>>,
                       from: People, owner: People, id: string)
    requires ListsDuplicateFree(p2) && from.id in p2 && owner.id in p2 && from.id != owner.id
    requires from.lands == p2[from.id] && owner.lands == p2[owner.id]
    requires forall o :: o in people ==> o in p2 && p2[o] == people[o]
    ensures var r := SaveAdd(SaveRemove(p2, from, id), owner, id);
      && ListsDuplicateFree(r)
      && owner.id in r && id in r[owner.id]
      && (forall o :: o in people ==> o in r)
      && (forall o, k :: o in people && k in people[o] && k != id ==> k in r[o])
  {
    var p3 := SaveRemove(p2, from, id);
    SaveRemoveNoDup(p2, from, id);
    SaveAddNoDup(p3, owner, id);
    forall k | k in p2[from.id] && k != id
      ensures k in p3[from.id]
    {
      RemoveLandKeepsOthers(from.lands, id, k);
    }
  }

  /** Transfer between distinct addresses keeps the store consistent. */
  lemma TransferPreservesConsistency(s: State, e: Transfer, c: Contract)
    requires Consistent(s) && e.from != e.to
    ensures Consistent(TransferStep(s, e, c))
  {
    var r, id := TransferStep(s, e, c), TransferLandId(e, c);
    var toKey, fromKey := HexString(e.to), HexString(e.from);
    if toKey == fromKey {
      HexStringInjective(e.to, e.from);
    }
    TransferTokenEffect(s, e, c);
    var p1 := LoadOrCreate(s.people, toKey);
    var p2 := LoadOrCreate(p1, fromKey);
    assert r.people == SaveAdd(SaveRemove(p2, People(fromKey, p2[fromKey]), id), People(toKey, p1[toKey]), id);
    MoveKeepsLists(s.people, p2, People(fromKey, p2[fromKey]), People(toKey, p2[toKey]), id);
    assert ListsDuplicateFree(r.people);
    UpdateKeepsConsistency(s, r, id);
  }

  /**
   * The corrected Transfer, which adds the land to the recipient's current
   * record, keeps the store consistent for every transfer, to oneself included.
   */
  lemma TransferFixedPreservesConsistency(s: State, e: Transfer, c: Contract)
    requires Consistent(s)
    ensures Consistent(TransferStepFixed(s, e, c))
  {
    if e.from != e.to {
      TransferFixedAgrees(s, e, c);
      TransferPreservesConsistency(s, e, c);
    } else {
      var r, id, key := TransferStepFixed(s, e, c), TransferLandId(e, c), HexString(e.to);
      var p1 := LoadOrCreate(s.people, key);
      var p3 := SaveRemove(p1, People(key, p1[key]), id);
      assert LoadOrCreate(p1, key) == p1;
      assert r.people == SaveAdd(p3, People(key, p3[key]), id);
      SaveRemoveNoDup(p1, People(key, p1[key]), id);
      SaveAddNoDup(p3, People(key, p3[key]), id);
      forall k | k in p1[key] && k != id
        ensures k in p3[key]
      {
        RemoveLandKeepsOthers(p1[key], id, k);
      }
      TransferFixedListsLand(s, e, c);
      UpdateKeepsConsistency(s, r, id);
    }
  }

  /** On distinct addresses the corrected Transfer is the Transfer as written. */
  lemma TransferFixedAgrees(s: State, e: Transfer, c: Contract)
    requires e.from != e.to
    ensures TransferStepFixed(s, e, c) == TransferStep(s, e, c)
  {
    var toKey, fromKey := HexString(e.to), HexString(e.from);
    if toKey == fromKey {
      HexStringInjective(e.to, e.from);
    }
  }

  /** The corrected Transfer always leaves the land listed under the recipient. */
  lemma TransferFixedListsLand(s: State, e: Transfer, c: Contract)
    ensures var r, key := TransferStepFixed(s, e, c), HexString(e.to);
      && r.tokens[TransferLandId(e, c)].owner == key
      && key in r.people && TransferLandId(e, c) in r.people[key]
  {
  }

  /**
   * Transfer as written, from an address to itself, of a land already listed
   * under that address: the land stays owned by the address but disappears
   * from its list, because the stale copy loaded before the removal still
   * holds the land and so `addPeopleLand` saves nothing.
   */
  lemma SelfTransferUnlistsLand(s: State, e: Transfer, c: Contract)
    requires e.from == e.to
    requires HexString(e.to) in s.people
    requires TransferLandId(e, c) in s.people[HexString(e.to)]
    requires NoDup(s.people[HexString(e.to)])
    ensures var r, id, key := TransferStep(s, e, c), TransferLandId(e, c), HexString(e.to);
      && r.tokens[id].owner == key
      && key in r.people && id !in r.people[key]
      && (key != ZeroKey ==> !OwnerListsLand(r))
  {
    var id, key := TransferLandId(e, c), HexString(e.to);
    RemoveLandNoDup(s.people[key], id);
  }
}
