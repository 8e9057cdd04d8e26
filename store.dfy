/**
 * The mock record store of src/services/api.ts: a `MockBoardApi` object owns
 * the board collection and changes it in place through `addCard`,
 * `updateCard`, `deleteCard` and `moveCard`. Each method is proved against a
 * pure function of the old collection (`Added`, `Updated`, `Deleted`,
 * `Moved`), and the properties the store promises are proved about those
 * functions.
 */
module Store {
  import opened Kanban

  /** The descriptive fields of the store's card record (src/types.ts). */
  datatype StoreDetails = StoreDetails(
    parcelDescription: string,
    pickupEntity: string,
    pickupAddressLine1: string,
    pickupAddressLine2: string,
    pickupSuburbanArea: string,
    pickupSuburb: string,
    deliveryEntity: string,
    deliveryAddressLine1: string,
    deliveryAddressLine2: string,
    deliverySuburbanArea: string,
    deliverySuburb: string,
    contact: string,
    priority: string,
    chargingTo: string,
    pricing: int,
    manuallyInvoice: string,
    source: string)

  type StoreCard = Card<StoreDetails>
  type StoreBoard = Board<StoreDetails>

  /** The three errors the store throws: 'Board not found', 'Card not found', 'Target board not found'. */
  datatype ApiError = BoardNotFound | CardNotFound | TargetBoardNotFound

  datatype Result<T> = Ok(value: T) | Err(error: ApiError)

  /** The outcome of the store's `Promise<void>` operations. */
  datatype Outcome = Done | Failed(error: ApiError)

  // ---------------------------------------------------------------------
  // The store's operations as functions of the board collection
  // ---------------------------------------------------------------------

  /** `addCard`: the collection after appending `card` to the first board with `boardId`, or None. */
  function Added(bs: seq<StoreBoard>, boardId: int, card: StoreCard): (r: Option<seq<StoreBoard>>)
    ensures r.None? <==> forall j :: 0 <= j < |bs| ==> bs[j].id != boardId
    ensures r.Some? ==> SameColumns(bs, r.value)
    ensures r.Some? ==>
      var i := FindBoard(bs, boardId).value;
      && r.value[i].cards == bs[i].cards + [card]
      && forall j :: 0 <= j < |bs| && j != i ==> r.value[j] == bs[j]
  {
    match FindBoard(bs, boardId)
    case None => None
    case Some(i) =>
      var b := bs[i].(cards := bs[i].cards + [card]);
      ReplaceKeepsColumns(bs, i, b);
      Some(bs[i := b])
  }

  /**
   * `updateCard`: the collection after replacing the first card (first board,
   * lowest index) carrying `card.jobId` by `card`, or None when no board holds one.
   */
  function Updated(bs: seq<StoreBoard>, card: StoreCard): (r: Option<seq<StoreBoard>>)
    ensures r.None? <==> forall j :: 0 <= j < |bs| ==> !HasJob(bs[j].cards, card.jobId)
    ensures r.Some? ==> SameColumns(bs, r.value)
    ensures r.Some? ==> forall j :: 0 <= j < |bs| ==> |r.value[j].cards| == |bs[j].cards|
  {
    match Locate(bs, card.jobId, 0)
    case None => None
    case Some((i, k)) =>
      var b := bs[i].(cards := bs[i].cards[k := card]);
      ReplaceKeepsColumns(bs, i, b);
      Some(bs[i := b])
  }

  /**
   * A successful `updateCard` puts `card` at the first position holding its
   * job id and leaves every other position of every board as it was.
   */
  lemma {:induction false} UpdatedReplacesOne(bs: seq<StoreBoard>, card: StoreCard)
    requires Updated(bs, card).Some?
    ensures
      var r, (i, k) := Updated(bs, card).value, Locate(bs, card.jobId, 0).value;
      && r[i].cards[k] == card
      && forall j, m :: 0 <= j < |bs| && 0 <= m < |bs[j].cards| && (j != i || m != k) ==>
           r[j].cards[m] == bs[j].cards[m]
  {
    var (i, k) := Locate(bs, card.jobId, 0).value;
    assert Updated(bs, card).value == bs[i := bs[i].(cards := bs[i].cards[k := card])];
  }

  /** `deleteCard`: the collection after filtering `jobId` out of the first board with `boardId`, or None. */
  function Deleted(bs: seq<StoreBoard>, boardId: int, jobId: string): (r: Option<seq<StoreBoard>>)
    ensures r.None? <==> forall j :: 0 <= j < |bs| ==> bs[j].id != boardId
    ensures r.Some? ==> SameColumns(bs, r.value)
    ensures r.Some? ==>
      var i := FindBoard(bs, boardId).value;
      && r.value[i].cards == WithoutJob(bs[i].cards, jobId)
      && forall j :: 0 <= j < |bs| && j != i ==> r.value[j] == bs[j]
  {
    match FindBoard(bs, boardId)
    case None => None
    case Some(i) =>
      var b := bs[i].(cards := WithoutJob(bs[i].cards, jobId));
      ReplaceKeepsColumns(bs, i, b);
      Some(bs[i := b])
  }

  /** The first step of `moveCard`: splice out the first card carrying `jobId`, if any. */
  function RemoveFirst(bs: seq<StoreBoard>, jobId: string): (r: seq<StoreBoard>)
    ensures SameColumns(bs, r)
    ensures Locate(bs, jobId, 0).None? ==> r == bs
    ensures Locate(bs, jobId, 0).Some? ==>
      var (i, k) := Locate(bs, jobId, 0).value;
      && r[i].cards == bs[i].cards[..k] + bs[i].cards[k + 1..]
      && forall j :: 0 <= j < |bs| && j != i ==> r[j] == bs[j]
  {
    match Locate(bs, jobId, 0)
    case None => bs
    case Some((i, k)) =>
      var b := bs[i].(cards := bs[i].cards[..k] + bs[i].cards[k + 1..]);
      ReplaceKeepsColumns(bs, i, b);
      bs[i := b]
  }

  /** The card `moveCard` appends: the argument with the new status and time. */
  function Restamped(card: StoreCard, newStatus: string, now: string): (r: StoreCard)
    ensures r.status == newStatus && r.updatedDateTime == now
    ensures r.jobId == card.jobId && r.details == card.details && r.createdBy == card.createdBy
    ensures r.driverId == card.driverId && r.driverAssignedCount == card.driverAssignedCount
    ensures r.createdDateTime == card.createdDateTime
  {
    card.(status := newStatus, updatedDateTime := now)
  }

  /**
   * `moveCard`: remove first, then look the target up; the removal stands even
   * when the target board is missing.
   */
  function Moved(bs: seq<StoreBoard>, card: StoreCard, targetBoardId: int, newStatus: string, now: string)
    : (r: seq<StoreBoard>)
    ensures SameColumns(bs, r)
    ensures FindBoard(bs, targetBoardId).None? ==> r == RemoveFirst(bs, card.jobId)
    ensures FindBoard(bs, targetBoardId).Some? ==>
      var t := FindBoard(bs, targetBoardId).value;
      var removed := RemoveFirst(bs, card.jobId);
      && r[t].cards == removed[t].cards + [Restamped(card, newStatus, now)]
      && forall j :: 0 <= j < |bs| && j != t ==> r[j] == removed[j]
  {
    var removed := RemoveFirst(bs, card.jobId);
    FindBoardSameColumns(bs, removed, targetBoardId);
    match FindBoard(removed, targetBoardId)
    case None => removed
    case Some(t) =>
      var b := removed[t].(cards := removed[t].cards + [Restamped(card, newStatus, now)]);
      ReplaceKeepsColumns(removed, t, b);
      removed[t := b]
  }

  /** What `moveCard` reports: the target is looked up after the removal, which keeps ids. */
  function MoveOutcome(bs: seq<StoreBoard>, targetBoardId: int): (r: Outcome)
    ensures r == Failed(TargetBoardNotFound) <==> forall j :: 0 <= j < |bs| ==> bs[j].id != targetBoardId
  {
    if FindBoard(bs, targetBoardId).None? then Failed(TargetBoardNotFound) else Done
  }

  /** The splice `moveCard`'s loop performs at the first board holding the id is `RemoveFirst`. */
  lemma {:induction false} RemoveFirstAt(bs: seq<StoreBoard>, jobId: string, i: nat)
    requires i < |bs| && Locate(bs, jobId, 0) == Locate(bs, jobId, i)
    requires FindCardIndex(bs[i].cards, jobId).Some?
    ensures
      var cs, k := bs[i].cards, FindCardIndex(bs[i].cards, jobId).value;
      RemoveFirst(bs, jobId) == bs[i := bs[i].(cards := cs[..k] + cs[k + 1..])]
  {
  }

  /** `Moved` pushes onto the board found after the removal, which is the board found before it. */
  lemma {:induction false} MovedFromRemoved(bs: seq<StoreBoard>, card: StoreCard, targetBoardId: int, newStatus: string, now: string)
    ensures
      var removed := RemoveFirst(bs, card.jobId);
      var m := Moved(bs, card, targetBoardId, newStatus, now);
      && FindBoard(removed, targetBoardId) == FindBoard(bs, targetBoardId)
      && (FindBoard(removed, targetBoardId).None? ==> m == removed)
      && (FindBoard(removed, targetBoardId).Some? ==>
            var t := FindBoard(removed, targetBoardId).value;
            m == removed[t := removed[t].(cards := removed[t].cards + [Restamped(card, newStatus, now)])])
  {
    FindBoardSameColumns(bs, RemoveFirst(bs, card.jobId), targetBoardId);
  }

  // ---------------------------------------------------------------------
  // The store object
  // ---------------------------------------------------------------------

  class MockBoardApi {
    var boards: seq<StoreBoard>

    constructor ()
      ensures boards == SeedBoards()
    {
      boards := SeedBoards();
    }

    method GetBoards() returns (r: seq<StoreBoard>)
      ensures r == boards
    {
      r := boards;
    }

    method AddCard(boardId: int, card: StoreCard) returns (r: Result<StoreCard>)
      modifies this
      ensures SameColumns(old(boards), boards)
      ensures Added(old(boards), boardId, card).None? ==> r == Err(BoardNotFound) && boards == old(boards)
      ensures Added(old(boards), boardId, card).Some? ==>
        r == Ok(card) && boards == Added(old(boards), boardId, card).value
    {
      var found := FindBoard(boards, boardId);
      if found.None? {
        return Err(BoardNotFound);
      }
      var board := boards[found.value];
      boards := boards[found.value := board.(cards := board.cards + [card])];
      return Ok(card);
    }

    method UpdateCard(updatedCard: StoreCard) returns (r: Result<StoreCard>)
      modifies this
      ensures SameColumns(old(boards), boards)
      ensures Updated(old(boards), updatedCard).None? ==> r == Err(CardNotFound) && boards == old(boards)
      ensures Updated(old(boards), updatedCard).Some? ==>
        r == Ok(updatedCard) && boards == Updated(old(boards), updatedCard).value
    {
      var i := 0;
      while i < |boards|
        invariant 0 <= i <= |boards|
        invariant boards == old(boards)
        invariant Locate(boards, updatedCard.jobId, 0) == Locate(boards, updatedCard.jobId, i)
      {
        var cardIndex := FindCardIndex(boards[i].cards, updatedCard.jobId);
        if cardIndex.Some? {
          var board := boards[i];
          boards := boards[i := board.(cards := board.cards[cardIndex.value := updatedCard])];
          return Ok(updatedCard);
        }
        i := i + 1;
      }
      return Err(CardNotFound);
    }

    method DeleteCard(boardId: int, jobId: string) returns (r: Outcome)
      modifies this
      ensures SameColumns(old(boards), boards)
      ensures Deleted(old(boards), boardId, jobId).None? ==> r == Failed(BoardNotFound) && boards == old(boards)
      ensures Deleted(old(boards), boardId, jobId).Some? ==>
        r == Done && boards == Deleted(old(boards), boardId, jobId).value
    {
      var found := FindBoard(boards, boardId);
      if found.None? {
        return Failed(BoardNotFound);
      }
      var board := boards[found.value];
      boards := boards[found.value := board.(cards := WithoutJob(board.cards, jobId))];
      return Done;
    }

    method MoveCard(card: StoreCard, targetBoardId: int, newStatus: string, now: string) returns (r: Outcome)
      modifies this
      ensures SameColumns(old(boards), boards)
      ensures boards == Moved(old(boards), card, targetBoardId, newStatus, now)
      ensures r == MoveOutcome(old(boards), targetBoardId)
    {
      // Splice out the first card that carries the job id.
      var i: nat := 0;
      while i < |boards|
        invariant 0 <= i <= |boards|
        invariant boards == old(boards)
        invariant Locate(boards, card.jobId, 0) == Locate(boards, card.jobId, i)
      {
        var cardIndex := FindCardIndex(boards[i].cards, card.jobId);
        if cardIndex.Some? {
          var cards := boards[i].cards;
          var k := cardIndex.value;
          RemoveFirstAt(boards, card.jobId, i);
          boards := boards[i := boards[i].(cards := cards[..k] + cards[k + 1..])];
          break;
        }
        i := i + 1;
      }
      assert boards == RemoveFirst(old(boards), card.jobId);
      MovedFromRemoved(old(boards), card, targetBoardId, newStatus, now);
      // Append the restamped copy to the target board.
      var target := FindBoard(boards, targetBoardId);
      if target.None? {
        return Failed(TargetBoardNotFound);
      }
      var t := target.value;
      boards := boards[t := boards[t].(cards := boards[t].cards + [Restamped(card, newStatus, now)])];
      return Done;
    }
  }

  // ---------------------------------------------------------------------
  // Properties of the operations
  // ---------------------------------------------------------------------

  /** A successful `addCard` adds exactly one card, carrying the argument's job id. */
  lemma {:induction false} AddedCounts(bs: seq<StoreBoard>, boardId: int, card: StoreCard)
    requires Added(bs, boardId, card).Some?
    ensures TotalCards(Added(bs, boardId, card).value) == TotalCards(bs) + 1
    ensures multiset(AllIds(Added(bs, boardId, card).value)) == multiset(AllIds(bs)) + multiset{card.jobId}
  {
    var i := FindBoard(bs, boardId).value;
    var b := bs[i].(cards := bs[i].cards + [card]);
    assert Added(bs, boardId, card).value == bs[i := b];
    ReplaceBoard(bs, i, b);
    CardIdsConcat(bs[i].cards, [card]);
    assert CardIds([card]) == [card.jobId];
    var before := multiset(CardIds(bs[i].cards));
    assert multiset(CardIds(b.cards)) == before + multiset{card.jobId};
    MultisetCancel(multiset(AllIds(bs[i := b])), multiset(AllIds(bs)) + multiset{card.jobId}, before);
  }

  /** A successful `updateCard` keeps the card count and the multiset of job ids. */
  lemma {:induction false} UpdatedCounts(bs: seq<StoreBoard>, card: StoreCard)
    requires Updated(bs, card).Some?
    ensures TotalCards(Updated(bs, card).value) == TotalCards(bs)
    ensures multiset(AllIds(Updated(bs, card).value)) == multiset(AllIds(bs))
    ensures UniqueJobIds(bs) ==> UniqueJobIds(Updated(bs, card).value)
  {
    var (i, k) := Locate(bs, card.jobId, 0).value;
    var b := bs[i].(cards := bs[i].cards[k := card]);
    var nb := Updated(bs, card).value;
    assert nb == bs[i := b];
    CardIdsUpdate(bs[i].cards, k, card);
    ReplaceBoardSameIds(bs, i, b);
    SameIdsKeepUnique(bs, nb);
  }

  /** Deleting an id that the named board does not hold changes nothing. */
  lemma {:induction false} DeleteAbsentIsNoOp(bs: seq<StoreBoard>, boardId: int, jobId: string)
    requires FindBoard(bs, boardId).Some?
    requires !HasJob(bs[FindBoard(bs, boardId).value].cards, jobId)
    ensures Deleted(bs, boardId, jobId) == Some(bs)
  {
    var i := FindBoard(bs, boardId).value;
    WithoutJobCount(bs[i].cards, jobId);
    assert bs[i := bs[i]] == bs;
  }

  /**
   * A successful `deleteCard` drops every card carrying `jobId` from the named
   * board, exactly those, and no other card anywhere.
   */
  lemma {:induction false} DeletedCounts(bs: seq<StoreBoard>, boardId: int, jobId: string)
    requires Deleted(bs, boardId, jobId).Some?
    ensures
      var r, i := Deleted(bs, boardId, jobId).value, FindBoard(bs, boardId).value;
      var n := multiset(CardIds(bs[i].cards))[jobId];
      && !HasJob(r[i].cards, jobId)
      && TotalCards(r) + n == TotalCards(bs)
      && JobCount(r, jobId) + n == JobCount(bs, jobId)
      && forall x :: x != jobId ==> JobCount(r, x) == JobCount(bs, x)
  {
    var i := FindBoard(bs, boardId).value;
    assert Deleted(bs, boardId, jobId).value == bs[i := bs[i].(cards := WithoutJob(bs[i].cards, jobId))];
    WithoutJobMembers(bs[i].cards, jobId);
    FilterBoardCounts(bs, i, jobId);
  }

  /** Splicing out a located card removes exactly one card carrying that id. */
  lemma {:induction false} RemoveFirstCounts(bs: seq<StoreBoard>, jobId: string)
    ensures Locate(bs, jobId, 0).None? ==> RemoveFirst(bs, jobId) == bs
    ensures Locate(bs, jobId, 0).Some? ==>
      && TotalCards(RemoveFirst(bs, jobId)) + 1 == TotalCards(bs)
      && multiset(AllIds(RemoveFirst(bs, jobId))) + multiset{jobId} == multiset(AllIds(bs))
  {
    if Locate(bs, jobId, 0).Some? {
      var (i, k) := Locate(bs, jobId, 0).value;
      var cs := bs[i].cards;
      var b := bs[i].(cards := cs[..k] + cs[k + 1..]);
      assert RemoveFirst(bs, jobId) == bs[i := b];
      ReplaceBoard(bs, i, b);
      SpliceIds(cs, k);
      var after := multiset(CardIds(b.cards));
      MultisetCancel(multiset(AllIds(bs[i := b])) + multiset{jobId}, multiset(AllIds(bs)), after);
    }
  }

  /**
   * The removal runs before the target lookup: when the target board is
   * missing, `moveCard` fails but the card it found is gone all the same.
   */
  lemma {:induction false} MoveToMissingBoardLosesCard(bs: seq<StoreBoard>, card: StoreCard, targetBoardId: int, newStatus: string, now: string)
    requires forall j :: 0 <= j < |bs| ==> bs[j].id != targetBoardId
    requires exists j :: 0 <= j < |bs| && HasJob(bs[j].cards, card.jobId)
    ensures MoveOutcome(bs, targetBoardId) == Failed(TargetBoardNotFound)
    ensures Moved(bs, card, targetBoardId, newStatus, now) == RemoveFirst(bs, card.jobId)
    ensures TotalCards(Moved(bs, card, targetBoardId, newStatus, now)) + 1 == TotalCards(bs)
    ensures multiset(AllIds(Moved(bs, card, targetBoardId, newStatus, now))) + multiset{card.jobId}
         == multiset(AllIds(bs))
  {
    RemoveFirstCounts(bs, card.jobId);
  }

  /**
   * With a valid target, `moveCard` replaces one occurrence of the job id (if
   * there was one) by the appended copy: the count of cards grows by one
   * exactly when the id was absent everywhere.
   */
  lemma {:induction false} MovedCounts(bs: seq<StoreBoard>, card: StoreCard, targetBoardId: int, newStatus: string, now: string)
    requires FindBoard(bs, targetBoardId).Some?
    ensures var r := Moved(bs, card, targetBoardId, newStatus, now);
      && (JobCount(bs, card.jobId) > 0 ==>
            TotalCards(r) == TotalCards(bs) && multiset(AllIds(r)) == multiset(AllIds(bs)))
      && (JobCount(bs, card.jobId) == 0 ==>
            TotalCards(r) == TotalCards(bs) + 1 && multiset(AllIds(r)) == multiset(AllIds(bs)) + multiset{card.jobId})
  {
    var removed := RemoveFirst(bs, card.jobId);
    var t := FindBoard(bs, targetBoardId).value;
    var stamped := Restamped(card, newStatus, now);
    var b := removed[t].(cards := removed[t].cards + [stamped]);
    var r := Moved(bs, card, targetBoardId, newStatus, now);
    assert r == removed[t := b];
    JobCountZero(bs, card.jobId);
    RemoveFirstCounts(bs, card.jobId);
    CardIdsConcat(removed[t].cards, [stamped]);
    assert CardIds([stamped]) == [card.jobId];
    ReplaceBoardAddsOne(removed, t, b, card.jobId);
    assert |multiset(AllIds(r))| == TotalCards(r) && |multiset(AllIds(bs))| == TotalCards(bs);
  }

  /** Moving a card present exactly once keeps job ids unique. */
  lemma {:induction false} MovePreservesUniqueIds(bs: seq<StoreBoard>, card: StoreCard, targetBoardId: int, newStatus: string, now: string)
    requires FindBoard(bs, targetBoardId).Some?
    requires UniqueJobIds(bs)
    requires JobCount(bs, card.jobId) == 1
    ensures UniqueJobIds(Moved(bs, card, targetBoardId, newStatus, now))
    ensures TotalCards(Moved(bs, card, targetBoardId, newStatus, now)) == TotalCards(bs)
  {
    var r := Moved(bs, card, targetBoardId, newStatus, now);
    MovedCounts(bs, card, targetBoardId, newStatus, now);
    forall x ensures JobCount(r, x) <= 1 {
      assert JobCount(r, x) == JobCount(bs, x);
    }
  }

  /** With a valid target, the moved copy is the last card of the target board and carries the new status. */
  lemma {:induction false} MovedLandsLast(bs: seq<StoreBoard>, card: StoreCard, targetBoardId: int, newStatus: string, now: string)
    requires FindBoard(bs, targetBoardId).Some?
    ensures var r := Moved(bs, card, targetBoardId, newStatus, now);
      var t := FindBoard(bs, targetBoardId).value;
      && r[t].id == targetBoardId
      && |r[t].cards| > 0
      && r[t].cards[|r[t].cards| - 1] == card.(status := newStatus, updatedDateTime := now)
      && JobCount(r, card.jobId) > 0
  {
    var r := Moved(bs, card, targetBoardId, newStatus, now);
    var t := FindBoard(bs, targetBoardId).value;
    assert CardIds(r[t].cards)[|r[t].cards| - 1] == card.jobId;
    assert HasJob(r[t].cards, card.jobId);
    JobCountZero(r, card.jobId);
  }

  // ---------------------------------------------------------------------
  // Seed data
  // ---------------------------------------------------------------------

  /** The store's initial collection: four columns and five jobs. */
  function SeedBoards(): (r: seq<StoreBoard>)
    ensures |r| == 4 && forall i :: 0 <= i < |r| ==> r[i].id == i + 1
    ensures r[0].title == "Pending" && r[1].title == "Assigned" && r[2].title == "In Transit" && r[3].title == "Completed"
    ensures |r[0].cards| == 2 && |r[1].cards| == 1 && |r[2].cards| == 1 && |r[3].cards| == 1
  {
    [ Board(1, "Pending", [
        Card("JOB-1704800001-123",
          StoreDetails("Electronics Package - Laptop", "Tech Store Sydney", "123 George St", "",
            "Northern Suburbs", "Yanchep", "ABC Corp", "456 Pitt St", "Level 5",
            "Eastern Suburbs", "Beechboro", "+61 2 9876 5432", "red", "Receiver", 1, "No", "Website"),
          "John Smith", "", 0, "Pending", "2024-01-09T09:30:00", "2024-01-09T09:30:00"),
        Card("JOB-1704800002-456",
          StoreDetails("Documents - Legal Papers", "Law Firm Melbourne", "789 Collins St", "Suite 10",
            "Western Suburbs", "North Beach", "Court House", "321 Lonsdale St", "",
            "Northern Suburbs", "Alkimos", "+61 3 8765 4321", "yellow", "Sender", 2, "Yes", "Phone"),
          "Sarah Johnson", "", 0, "Pending", "2024-01-09T10:15:00", "2024-01-09T10:15:00")]),
      Board(2, "Assigned", [
        Card("JOB-1704800003-789",
          StoreDetails("Medical Supplies", "MedSupply Co", "111 Crown St", "",
            "Central & South Central Suburbs", "Dianella", "City Hospital", "222 Health Ave", "Building B",
            "Southern Suburbs and Mandurah Region", "Port Kennedy", "+61 2 9111 2222", "red", "Receiver", 3, "No", "Website"),
          "John Smith", "Driver-001", 1, "Assigned", "2024-01-09T08:00:00", "2024-01-09T11:00:00")]),
      Board(3, "In Transit", [
        Card("JOB-1704800004-012",
          StoreDetails("Clothing - Fashion Items", "Fashion Boutique", "555 Oxford St", "Shop 2",
            "Eastern Suburbs", "Bennett Springs", "Customer Residence", "888 Park Rd", "",
            "Western Suburbs", "Watermans Bay", "+61 4 3333 4444", "green", "Sender", 1, "No", "Website"),
          "Sarah Johnson", "Driver-002", 1, "In Transit", "2024-01-08T14:30:00", "2024-01-09T09:00:00")]),
      Board(4, "Completed", [
        Card("JOB-1704800005-345",
          StoreDetails("Books - Educational Materials", "University Bookstore", "999 Campus Dr", "Building 5",
            "Southern Suburbs and Mandurah Region", "Baldivis", "Student Housing", "777 College Ave", "Room 101",
            "Central & South Central Suburbs", "Yokine", "+61 4 5555 6666", "green", "Receiver", 1, "No", "Phone"),
          "John Smith", "Driver-003", 1, "Completed", "2024-01-07T10:00:00", "2024-01-08T15:30:00")])
    ]
  }

  /** The seed keeps every invariant the operations rely on. */
  lemma {:induction false} SeedInvariants()
    ensures UniqueBoardIds(SeedBoards())
    ensures StatusMatchesTitle(SeedBoards())
    ensures TotalCards(SeedBoards()) == 5
  {
  }
}
