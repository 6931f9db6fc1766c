/**
 * The two entity tables, the four events and the contract reads that the
 * handlers of src/mapping.ts consume.
 */
module Schema {
  import opened Wrappers
  import opened Keys

  /**
   * A People entity as a handler holds it after loading: its id (the address
   * hex) and its own copy of the ids of its lands, a list used as a set.
   */
  datatype People = People(id: string, lands: seq<string>)

  /**
   * A land cell; its id is the key it is stored under, `LandId(x, y)`.
   * Fields that a handler may leave unset are optional; `owner` and `minted`
   * hold People ids.
   */
  datatype TokenInfo = TokenInfo(
    x: int,
    y: int,
    minted: Option<string>,
    owner: string,
    tokenId: Option<int>,
    tokenSvg: Option<string>,
    slogan: Option<string>,
    neighbors: Option<seq<string>>,
    createdAtTimestamp: int,
    createdAtBlockNumber: int,
    givedAtBlockNumber: Option<int>,
    givedAtTimestamp: Option<int>)

  /** The block an event was emitted in. */
  datatype Block = Block(number: int, timestamp: int)

  datatype Mint = Mint(x: int, y: int, mintedAddress: Address, block: Block)
  datatype GiveTo = GiveTo(x: int, y: int, givedAddress: Address, block: Block)
  datatype Transfer = Transfer(from: Address, to: Address, tokenId: int, block: Block)
  datatype SetSlogan = SetSlogan(x: int, y: int, slogan: string, block: Block)

  /**
   * The contract's view functions at the block being indexed. They are calls
   * into code outside this model, so they are given as values.
   */
  datatype Contract = Contract(
    getTokenId: (int, int) -> int,
    tokenURI: int -> string,
    landSlogan: (int, int) -> string,
    getNeighborsParams: (int, int) -> seq<Option<string>>,
    getCoordinates: int -> (int, int))

  /**
   * The store: TokenInfo records by id, and the `lands` list of each People
   * record by id (a People record has no other field).
   */
  datatype State = State(tokens: map<string, TokenInfo>, people: map<string, seq<string>>)

  /**
   * `new TokenInfo(id)` with the fields every creating handler sets: x, y and
   * `createdAt*`. Nothing that a grant sets is set yet.
   */
  function NewTokenInfo(x: int, y: int, block: Block): (t: TokenInfo)
    ensures t.x == x && t.y == y
    ensures t.createdAtBlockNumber == block.number && t.createdAtTimestamp == block.timestamp
    ensures t.minted == None && t.tokenId == None && t.tokenSvg == None && t.slogan == None
    ensures t.neighbors == None && t.givedAtBlockNumber == None && t.givedAtTimestamp == None
  {
    TokenInfo(x, y, None, "", None, None, None, None, block.timestamp, block.number, None, None)
  }
}
