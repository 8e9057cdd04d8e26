/**
 * The board reducers of the `TrelloDashboard` component
 * (src/TrelloDashboard.tsx). The component keeps the boards and the drag and
 * edit state in React state; every handler computes the next boards from the
 * previous ones with `map`, `filter` and spreads and swaps them in. Each
 * handler is modelled as a function from the component state (and the current
 * time, and a generated job id where one is drawn) to the next state.
 */
module Dashboard {
  import opened Kanban

  /** The descriptive fields of the dashboard's card record (src/TrelloDashboard.tsx:6-29). */
  datatype CardDetails = CardDetails(
    parcelDescription: string,
    pickupEntity: string,
    pickupAddressLine1: string,
    pickupAddressLine2: string,
    pickupArea: string,
    deliveryEntity: string,
    deliveryAddressLine1: string,
    deliveryAddressLine2: string,
    deliveryArea: string,
    contact: string,
    priority: string,
    chargingTo: string,
    pricing: int,
    manuallyInvoice: string,
    source: string)

  type JobCard = Card<CardDetails>
  type Column = Board<CardDetails>

  /** The edit modal's form: every descriptive field plus the driver. */
  datatype EditForm = EditForm(details: CardDetails, driverId: string)

  /** The component's state: the boards and the drag, new-card and edit state. */
  datatype View = View(
    boards: seq<Column>,
    draggedCard: Option<JobCard>,
    draggedFromBoard: Option<int>,
    showNewCard: Option<int>,
    editingCard: Option<JobCard>,
    editingBoardId: Option<int>,
    editForm: EditForm)

  /**
   * JavaScript truthiness of a `number | null`: `!id` holds for null and for
   * 0 alike, so only a non-zero id counts as set.
   */
  predicate IsSet(id: Option<int>)
    ensures id.None? ==> !IsSet(id)
    ensures id == Some(0) ==> !IsSet(id)
    ensures IsSet(id) <==> id.Some? && id != Some(0)
  {
    id.Some? && id.value != 0
  }

  // ---------------------------------------------------------------------
  // Drag and drop
  // ---------------------------------------------------------------------

  /** `handleDragStart`: remember the card and the board it was picked up from. */
  function HandleDragStart(v: View, card: JobCard, boardId: int): (r: View)
    ensures r.draggedCard == Some(card) && r.draggedFromBoard == Some(boardId)
    ensures r.(draggedCard := v.draggedCard, draggedFromBoard := v.draggedFromBoard) == v
  {
    v.(draggedCard := Some(card), draggedFromBoard := Some(boardId))
  }

  /** The guards of `handleDrop`: a dragged card, a truthy source id, and a target that exists. */
  predicate DropAccepted(v: View, targetBoardId: int)
    ensures DropAccepted(v, targetBoardId) <==>
      && v.draggedCard.Some? && v.draggedFromBoard.Some? && v.draggedFromBoard.value != 0
      && exists j :: 0 <= j < |v.boards| && v.boards[j].id == targetBoardId
  {
    v.draggedCard.Some? && IsSet(v.draggedFromBoard) && FindBoard(v.boards, targetBoardId).Some?
  }

  /** What `handleDrop`'s `map` does to one board: the source test runs before the target test. */
  function DropColumn(b: Column, card: JobCard, from: int, target: int, newStatus: string, now: string): (r: Column)
    ensures r.id == b.id && r.title == b.title
    ensures b.id == from ==>
      && !HasJob(r.cards, card.jobId)
      && forall k :: 0 <= k < |b.cards| && b.cards[k].jobId != card.jobId ==> b.cards[k] in r.cards
    ensures b.id != from && b.id == target ==>
      && |r.cards| == |b.cards| + 1 && r.cards[..|b.cards|] == b.cards
      && r.cards[|b.cards|] == card.(status := newStatus, updatedDateTime := now)
    ensures b.id != from && b.id != target ==> r == b
  {
    if b.id == from then
      WithoutJobMembers(b.cards, card.jobId);
      b.(cards := WithoutJob(b.cards, card.jobId))
    else if b.id == target then b.(cards := b.cards + [card.(status := newStatus, updatedDateTime := now)])
    else b
  }

  /**
   * `handleDrop(targetBoardId)`. Without a dragged card or a truthy source id,
   * or when no board has the target id, nothing changes (the drag state is
   * kept too). Otherwise every board is mapped by `DropColumn`, with the
   * target's title as the new status, and the drag state is cleared.
   */
  function HandleDrop(v: View, targetBoardId: int, now: string): (r: View)
    ensures !DropAccepted(v, targetBoardId) ==> r == v
    ensures DropAccepted(v, targetBoardId) ==>
      r.draggedCard.None? && r.draggedFromBoard.None? &&
      r.(boards := v.boards, draggedCard := v.draggedCard, draggedFromBoard := v.draggedFromBoard) == v
    ensures SameColumns(v.boards, r.boards)
  {
    if v.draggedCard.None? || !IsSet(v.draggedFromBoard) then v
    else match FindBoard(v.boards, targetBoardId)
      case None => v
      case Some(t) =>
        var card, from, newStatus := v.draggedCard.value, v.draggedFromBoard.value, v.boards[t].title;
        var bs := seq(|v.boards|, i requires 0 <= i < |v.boards| =>
          DropColumn(v.boards[i], card, from, targetBoardId, newStatus, now));
        v.(boards := bs, draggedCard := None, draggedFromBoard := None)
  }

  /**
   * A drop between two different columns: every source board loses all cards
   * with the dragged id and keeps the others, every target board gains one
   * appended copy restamped with the target's title and `now`, and every
   * other board is untouched.
   */
  lemma {:induction false} DropBetweenColumns(v: View, targetBoardId: int, now: string)
    requires DropAccepted(v, targetBoardId) && v.draggedFromBoard.value != targetBoardId
    ensures
      var bs, r := v.boards, HandleDrop(v, targetBoardId, now).boards;
      var card, from := v.draggedCard.value, v.draggedFromBoard.value;
      var title := bs[FindBoard(bs, targetBoardId).value].title;
      forall i :: 0 <= i < |bs| ==>
        && (bs[i].id == from ==>
              && !HasJob(r[i].cards, card.jobId)
              && |r[i].cards| + multiset(CardIds(bs[i].cards))[card.jobId] == |bs[i].cards|
              && (forall k :: 0 <= k < |bs[i].cards| && bs[i].cards[k].jobId != card.jobId ==>
                    bs[i].cards[k] in r[i].cards))
        && (bs[i].id == targetBoardId ==>
              r[i].cards == bs[i].cards + [card.(status := title, updatedDateTime := now)])
        && (bs[i].id != from && bs[i].id != targetBoardId ==> r[i] == bs[i])
  {
    var bs, card := v.boards, v.draggedCard.value;
    var r := HandleDrop(v, targetBoardId, now).boards;
    forall i | 0 <= i < |bs| && bs[i].id == v.draggedFromBoard.value
      ensures !HasJob(r[i].cards, card.jobId)
      ensures |r[i].cards| + multiset(CardIds(bs[i].cards))[card.jobId] == |bs[i].cards|
      ensures forall k :: 0 <= k < |bs[i].cards| && bs[i].cards[k].jobId != card.jobId ==> bs[i].cards[k] in r[i].cards
    {
      WithoutJobMembers(bs[i].cards, card.jobId);
      WithoutJobCount(bs[i].cards, card.jobId);
    }
  }

  /**
   * With distinct board ids, every drop keeps each card on a board whose
   * title is its status, dropping onto the own column included.
   */
  lemma {:induction false} DropPreservesStatus(v: View, targetBoardId: int, now: string)
    requires UniqueBoardIds(v.boards) && StatusMatchesTitle(v.boards)
    ensures StatusMatchesTitle(HandleDrop(v, targetBoardId, now).boards)
  {
    if DropAccepted(v, targetBoardId) {
      var bs, r := v.boards, HandleDrop(v, targetBoardId, now).boards;
      var card, from := v.draggedCard.value, v.draggedFromBoard.value;
      var t := FindBoard(bs, targetBoardId).value;
      forall i, k | 0 <= i < |r| && 0 <= k < |r[i].cards| ensures r[i].cards[k].status == r[i].title {
        if bs[i].id == from {
          assert r[i].cards[k] in bs[i].cards;
        } else if bs[i].id == targetBoardId {
          FindBoardUnique(bs, targetBoardId, i);
          assert i == t;
          if k < |bs[i].cards| {
            assert r[i].cards[k] == bs[i].cards[k];
          }
        }
      }
    }
  }

  /**
   * Under distinct board ids, an accepted drop between different columns
   * rewrites exactly the source and the target board.
   */
  lemma {:induction false} DropTouchesTwoBoards(v: View, targetBoardId: int, now: string, f: nat)
    requires DropAccepted(v, targetBoardId) && v.draggedFromBoard.value != targetBoardId
    requires UniqueBoardIds(v.boards)
    requires f < |v.boards| && v.boards[f].id == v.draggedFromBoard.value
    ensures
      var bs, card, t := v.boards, v.draggedCard.value, FindBoard(v.boards, targetBoardId).value;
      HandleDrop(v, targetBoardId, now).boards
        == bs[f := bs[f].(cards := WithoutJob(bs[f].cards, card.jobId))]
             [t := bs[t].(cards := bs[t].cards + [card.(status := bs[t].title, updatedDateTime := now)])]
  {
    var bs, t := v.boards, FindBoard(v.boards, targetBoardId).value;
    var r := HandleDrop(v, targetBoardId, now).boards;
    forall i | 0 <= i < |bs| && i != f && i != t ensures r[i] == bs[i] {
      FindBoardUnique(bs, bs[i].id, i);
    }
  }

  /**
   * The drop as written, onto the column the card came from: the source test
   * fires first, so the card is filtered out and never appended again.
   * Every card with that id leaves the column and the boards lose exactly
   * those cards.
   */
  lemma {:induction false} DropOntoOwnColumnDeletesCard(v: View, now: string, f: nat)
    requires v.draggedFromBoard.Some? && DropAccepted(v, v.draggedFromBoard.value)
    requires UniqueBoardIds(v.boards)
    requires f < |v.boards| && v.boards[f].id == v.draggedFromBoard.value
    ensures
      var bs, jobId := v.boards, v.draggedCard.value.jobId;
      var r := HandleDrop(v, v.draggedFromBoard.value, now).boards;
      && r == bs[f := bs[f].(cards := WithoutJob(bs[f].cards, jobId))]
      && !HasJob(r[f].cards, jobId)
      && TotalCards(r) + multiset(CardIds(bs[f].cards))[jobId] == TotalCards(bs)
  {
    var bs, jobId := v.boards, v.draggedCard.value.jobId;
    var r := HandleDrop(v, v.draggedFromBoard.value, now).boards;
    var b := bs[f].(cards := WithoutJob(bs[f].cards, jobId));
    forall i | 0 <= i < |bs| && i != f ensures r[i] == bs[i] {
      FindBoardUnique(bs, bs[i].id, i);
    }
    assert r == bs[f := b];
    ReplaceBoard(bs, f, b);
    WithoutJobMembers(bs[f].cards, jobId);
    WithoutJobCount(bs[f].cards, jobId);
  }

  /**
   * The intended `handleDrop`: dropping a card back onto its own column is a
   * no-op (the drag ends, the boards stay); every other drop is `HandleDrop`.
   */
  function HandleDropIntended(v: View, targetBoardId: int, now: string): (r: View)
    ensures !DropAccepted(v, targetBoardId) ==> r == v
    ensures DropAccepted(v, targetBoardId) ==> r.draggedCard.None? && r.draggedFromBoard.None?
    ensures SameColumns(v.boards, r.boards)
  {
    if DropAccepted(v, targetBoardId) && v.draggedFromBoard.value == targetBoardId then
      v.(draggedCard := None, draggedFromBoard := None)
    else HandleDrop(v, targetBoardId, now)
  }

  /**
   * The intended drop keeps the job ids: with distinct board ids and the
   * dragged card held once by its source board, the multiset of job ids and
   * the card count are the same after any drop, onto the own column included.
   */
  lemma {:induction false} DropKeepsJobs(v: View, targetBoardId: int, now: string, f: nat)
    requires UniqueBoardIds(v.boards) && v.draggedCard.Some? && v.draggedFromBoard.Some?
    requires f < |v.boards| && v.boards[f].id == v.draggedFromBoard.value
    requires multiset(CardIds(v.boards[f].cards))[v.draggedCard.value.jobId] == 1
    ensures multiset(AllIds(HandleDropIntended(v, targetBoardId, now).boards)) == multiset(AllIds(v.boards))
    ensures TotalCards(HandleDropIntended(v, targetBoardId, now).boards) == TotalCards(v.boards)
  {
    if DropAccepted(v, targetBoardId) && v.draggedFromBoard.value != targetBoardId {
      var bs, card, t := v.boards, v.draggedCard.value, FindBoard(v.boards, targetBoardId).value;
      var jobId, moved := card.jobId, card.(status := bs[t].title, updatedDateTime := now);
      var bf := bs[f].(cards := WithoutJob(bs[f].cards, jobId));
      var bt := bs[t].(cards := bs[t].cards + [moved]);
      DropTouchesTwoBoards(v, targetBoardId, now, f);
      WithoutJobIds(bs[f].cards, jobId);
      RemoveSingle(multiset(CardIds(bs[f].cards)), jobId);
      CardIdsConcat(bs[t].cards, [moved]);
      assert CardIds([moved]) == [jobId];
      TransferOneId(bs, f, t, bf, bt, jobId);
    }
  }

  /** The intended drop onto the own column leaves the boards exactly as they were. */
  lemma {:induction false} DropOntoOwnColumnIsNoOp(v: View, now: string)
    requires v.draggedFromBoard.Some? && DropAccepted(v, v.draggedFromBoard.value)
    ensures HandleDropIntended(v, v.draggedFromBoard.value, now).boards == v.boards
    ensures HandleDropIntended(v, v.draggedFromBoard.value, now).draggedCard.None?
  {
  }

  // ---------------------------------------------------------------------
  // Adding and deleting cards
  // ---------------------------------------------------------------------

  /** The card `addCard` creates: a blank parcel, unassigned, stamped with `now`. */
  function NewCard(jobId: string, status: string, now: string): (c: JobCard)
    ensures c.jobId == jobId && c.status == status
    ensures c.driverId == "" && c.driverAssignedCount == 0
    ensures c.createdDateTime == now && c.updatedDateTime == now
  {
    Card(jobId,
      CardDetails("New Parcel", "", "", "", "are1", "", "", "", "are1", "", "green", "Sender", 1, "No", "Website"),
      "Current User", "", 0, status, now, now)
  }

  /**
   * `addCard(boardId)`, with `jobId` standing for the generated id. An unknown
   * board changes nothing (the new-card form stays open); otherwise every
   * board with that id gets the new card appended and the form closes.
   */
  function AddCard(v: View, boardId: int, jobId: string, now: string): (r: View)
    ensures FindBoard(v.boards, boardId).None? ==> r == v
    ensures FindBoard(v.boards, boardId).Some? ==>
      r.showNewCard.None? && r.(boards := v.boards, showNewCard := v.showNewCard) == v
    ensures SameColumns(v.boards, r.boards)
  {
    match FindBoard(v.boards, boardId)
    case None => v
    case Some(b) =>
      var c := NewCard(jobId, v.boards[b].title, now);
      var bs := seq(|v.boards|, i requires 0 <= i < |v.boards| =>
        if v.boards[i].id == boardId then v.boards[i].(cards := v.boards[i].cards + [c]) else v.boards[i]);
      v.(boards := bs, showNewCard := None)
  }

  /** Under distinct board ids, a successful `addCard` rewrites the one board with the id. */
  lemma {:induction false} AddCardTouchesOneBoard(v: View, boardId: int, jobId: string, now: string)
    requires UniqueBoardIds(v.boards) && FindBoard(v.boards, boardId).Some?
    ensures
      var bs, b := v.boards, FindBoard(v.boards, boardId).value;
      AddCard(v, boardId, jobId, now).boards
        == bs[b := bs[b].(cards := bs[b].cards + [NewCard(jobId, bs[b].title, now)])]
  {
    var bs, r, b := v.boards, AddCard(v, boardId, jobId, now).boards, FindBoard(v.boards, boardId).value;
    forall j | 0 <= j < |bs| && j != b ensures r[j] == bs[j] {
      FindBoardUnique(bs, bs[j].id, j);
    }
  }

  /**
   * A successful `addCard` appends one unassigned card carrying the board's
   * title and the new id to the first board with that id, keeping its
   * earlier cards in order; with distinct board ids every other board is
   * untouched.
   */
  lemma {:induction false} AddCardAppends(v: View, boardId: int, jobId: string, now: string)
    requires FindBoard(v.boards, boardId).Some?
    ensures
      var bs, r, b := v.boards, AddCard(v, boardId, jobId, now).boards, FindBoard(v.boards, boardId).value;
      && |r[b].cards| == |bs[b].cards| + 1
      && r[b].cards[..|bs[b].cards|] == bs[b].cards
      && var c := r[b].cards[|bs[b].cards|];
         c.jobId == jobId && c.status == bs[b].title && c.driverId == "" && c.driverAssignedCount == 0
         && c.createdDateTime == now && c.updatedDateTime == now
    ensures UniqueBoardIds(v.boards) ==>
      var bs, r, b := v.boards, AddCard(v, boardId, jobId, now).boards, FindBoard(v.boards, boardId).value;
      forall j :: 0 <= j < |bs| && j != b ==> r[j] == bs[j]
  {
    if UniqueBoardIds(v.boards) {
      AddCardTouchesOneBoard(v, boardId, jobId, now);
    }
  }

  /**
   * With distinct board ids, a successful `addCard` adds `jobId` to the
   * job-id multiset and nothing else, so a fresh id keeps the ids unique.
   */
  lemma {:induction false} AddCardCounts(v: View, boardId: int, jobId: string, now: string)
    requires UniqueBoardIds(v.boards) && FindBoard(v.boards, boardId).Some?
    ensures multiset(AllIds(AddCard(v, boardId, jobId, now).boards)) == multiset(AllIds(v.boards)) + multiset{jobId}
    ensures UniqueJobIds(v.boards) && JobCount(v.boards, jobId) == 0 ==> UniqueJobIds(AddCard(v, boardId, jobId, now).boards)
  {
    var bs, r, b := v.boards, AddCard(v, boardId, jobId, now).boards, FindBoard(v.boards, boardId).value;
    var c := NewCard(jobId, bs[b].title, now);
    AddCardTouchesOneBoard(v, boardId, jobId, now);
    CardIdsConcat(bs[b].cards, [c]);
    assert CardIds([c]) == [jobId];
    ReplaceBoardAddsOne(bs, b, bs[b].(cards := bs[b].cards + [c]), jobId);
    if UniqueJobIds(bs) && JobCount(bs, jobId) == 0 {
      forall x ensures JobCount(r, x) <= 1 {
        assert JobCount(r, x) == JobCount(bs, x) + multiset{jobId}[x];
      }
    }
  }

  /** With distinct board ids, `addCard` keeps every card's status equal to its board's title. */
  lemma {:induction false} AddCardPreservesStatus(v: View, boardId: int, jobId: string, now: string)
    requires UniqueBoardIds(v.boards) && StatusMatchesTitle(v.boards)
    ensures StatusMatchesTitle(AddCard(v, boardId, jobId, now).boards)
  {
    if FindBoard(v.boards, boardId).Some? {
      var bs, r, b := v.boards, AddCard(v, boardId, jobId, now).boards, FindBoard(v.boards, boardId).value;
      AddCardTouchesOneBoard(v, boardId, jobId, now);
      forall i, k | 0 <= i < |r| && 0 <= k < |r[i].cards| ensures r[i].cards[k].status == r[i].title {
        if i == b && k < |bs[b].cards| {
          assert r[i].cards[k] == bs[b].cards[k];
        }
      }
    }
  }

  /** `deleteCard(boardId, jobId)`: filter `jobId` out of every board with that id. */
  function DeleteCard(v: View, boardId: int, jobId: string): (r: View)
    ensures r.(boards := v.boards) == v
    ensures SameColumns(v.boards, r.boards)
  {
    var bs := seq(|v.boards|, i requires 0 <= i < |v.boards| =>
      if v.boards[i].id == boardId then v.boards[i].(cards := WithoutJob(v.boards[i].cards, jobId)) else v.boards[i]);
    v.(boards := bs)
  }

  /**
   * `deleteCard` empties the named board of `jobId`, keeps its other cards
   * and every other board; it changes nothing exactly when the named board
   * holds no such card.
   */
  lemma {:induction false} DeleteCardRemoves(v: View, boardId: int, jobId: string)
    ensures
      var bs, r := v.boards, DeleteCard(v, boardId, jobId).boards;
      forall i :: 0 <= i < |bs| ==>
        && (bs[i].id == boardId ==>
              && !HasJob(r[i].cards, jobId)
              && (forall k :: 0 <= k < |bs[i].cards| && bs[i].cards[k].jobId != jobId ==> bs[i].cards[k] in r[i].cards))
        && (bs[i].id != boardId ==> r[i] == bs[i])
    ensures DeleteCard(v, boardId, jobId) == v <==>
      forall i :: 0 <= i < |v.boards| && v.boards[i].id == boardId ==> !HasJob(v.boards[i].cards, jobId)
  {
    var bs, r := v.boards, DeleteCard(v, boardId, jobId).boards;
    forall i | 0 <= i < |bs| && bs[i].id == boardId
      ensures !HasJob(r[i].cards, jobId)
      ensures forall k :: 0 <= k < |bs[i].cards| && bs[i].cards[k].jobId != jobId ==> bs[i].cards[k] in r[i].cards
      ensures !HasJob(bs[i].cards, jobId) ==> r[i] == bs[i]
    {
      WithoutJobMembers(bs[i].cards, jobId);
      WithoutJobCount(bs[i].cards, jobId);
    }
    if forall i :: 0 <= i < |bs| && bs[i].id == boardId ==> !HasJob(bs[i].cards, jobId) {
      assert r == bs;
    }
  }

  /** Under distinct board ids, `deleteCard` on a known board rewrites that board only. */
  lemma {:induction false} DeleteCardTouchesOneBoard(v: View, boardId: int, jobId: string)
    requires UniqueBoardIds(v.boards) && FindBoard(v.boards, boardId).Some?
    ensures
      var bs, b := v.boards, FindBoard(v.boards, boardId).value;
      DeleteCard(v, boardId, jobId).boards == bs[b := bs[b].(cards := WithoutJob(bs[b].cards, jobId))]
  {
    var bs, r, b := v.boards, DeleteCard(v, boardId, jobId).boards, FindBoard(v.boards, boardId).value;
    forall j | 0 <= j < |bs| && j != b ensures r[j] == bs[j] {
      FindBoardUnique(bs, bs[j].id, j);
    }
  }

  /**
   * With distinct board ids, `deleteCard` lowers the count of `jobId`, and the
   * card count, by the number of its cards on the named board, and leaves
   * every other id's count alone.
   */
  lemma {:induction false} DeleteCardCounts(v: View, boardId: int, jobId: string)
    requires UniqueBoardIds(v.boards) && FindBoard(v.boards, boardId).Some?
    ensures
      var bs, r, b := v.boards, DeleteCard(v, boardId, jobId).boards, FindBoard(v.boards, boardId).value;
      && JobCount(r, jobId) + multiset(CardIds(bs[b].cards))[jobId] == JobCount(bs, jobId)
      && (forall x :: x != jobId ==> JobCount(r, x) == JobCount(bs, x))
      && TotalCards(r) + multiset(CardIds(bs[b].cards))[jobId] == TotalCards(bs)
  {
    var bs, r, b := v.boards, DeleteCard(v, boardId, jobId).boards, FindBoard(v.boards, boardId).value;
    DeleteCardTouchesOneBoard(v, boardId, jobId);
    FilterBoardCounts(bs, b, jobId);
  }

  /** `deleteCard` on distinct board ids keeps unique job ids unique. */
  lemma {:induction false} DeleteCardKeepsUnique(v: View, boardId: int, jobId: string)
    requires UniqueBoardIds(v.boards) && UniqueJobIds(v.boards)
    ensures UniqueJobIds(DeleteCard(v, boardId, jobId).boards)
  {
    var bs, r := v.boards, DeleteCard(v, boardId, jobId).boards;
    match FindBoard(bs, boardId)
    case None =>
      DeleteCardRemoves(v, boardId, jobId);
    case Some(_) =>
      DeleteCardCounts(v, boardId, jobId);
      forall x ensures JobCount(r, x) <= 1 {
        assert JobCount(r, x) <= JobCount(bs, x);
      }
  }

  /** `deleteCard` keeps every remaining card's status equal to its board's title. */
  lemma {:induction false} DeleteCardPreservesStatus(v: View, boardId: int, jobId: string)
    requires StatusMatchesTitle(v.boards)
    ensures StatusMatchesTitle(DeleteCard(v, boardId, jobId).boards)
  {
    var bs, r := v.boards, DeleteCard(v, boardId, jobId).boards;
    forall i, k | 0 <= i < |r| && 0 <= k < |r[i].cards| ensures r[i].cards[k].status == r[i].title {
      if bs[i].id == boardId {
        assert r[i].cards[k] in bs[i].cards;
      }
    }
  }

  // ---------------------------------------------------------------------
  // Editing cards
  // ---------------------------------------------------------------------

  /** `openEditModal(card, boardId)`: the form mirrors the card's fields. */
  function OpenEditModal(v: View, card: JobCard, boardId: int): (r: View)
    ensures r.editingCard == Some(card) && r.editingBoardId == Some(boardId)
    ensures r.editForm.details == card.details && r.editForm.driverId == card.driverId
    ensures r.(editingCard := v.editingCard, editingBoardId := v.editingBoardId, editForm := v.editForm) == v
  {
    v.(editingCard := Some(card), editingBoardId := Some(boardId), editForm := EditForm(card.details, card.driverId))
  }

  /** `closeEditModal`: the modal closes; the form keeps its last contents. */
  function CloseEditModal(v: View): (r: View)
    ensures r.editingCard.None? && r.editingBoardId.None?
    ensures r.(editingCard := v.editingCard, editingBoardId := v.editingBoardId) == v
  {
    v.(editingCard := None, editingBoardId := None)
  }

  /**
   * A card after `saveCardChanges`: the form's fields spread over it, the
   * assignment counter bumped on an unassigned-to-assigned edit, and the
   * update time set. The form has no job id, status, author or creation time,
   * so those are kept.
   */
  function EditedCard(c: JobCard, form: EditForm, now: string): (e: JobCard)
    ensures e.jobId == c.jobId && e.status == c.status
    ensures e.createdBy == c.createdBy && e.createdDateTime == c.createdDateTime
    ensures e.details == form.details && e.driverId == form.driverId && e.updatedDateTime == now
  {
    var count := if form.driverId != "" && c.driverId == "" then c.driverAssignedCount + 1 else c.driverAssignedCount;
    c.(details := form.details, driverId := form.driverId, driverAssignedCount := count, updatedDateTime := now)
  }

  /**
   * The assignment counter grows by exactly one when a driver is set on a
   * card that had none, and stays put otherwise (unchanged driver, unassign,
   * reassign): it never decreases.
   */
  lemma {:induction false} AssignmentCount(c: JobCard, form: EditForm, now: string)
    ensures EditedCard(c, form, now).driverAssignedCount >= c.driverAssignedCount
    ensures EditedCard(c, form, now).driverAssignedCount == c.driverAssignedCount + 1
        <==> form.driverId != "" && c.driverId == ""
    ensures EditedCard(c, form, now).driverAssignedCount == c.driverAssignedCount
        <==> !(form.driverId != "" && c.driverId == "")
  {
  }

  /** What `saveCardChanges`'s inner `map` does to the editing board's cards. */
  function EditedCards(cs: seq<JobCard>, jobId: string, form: EditForm, now: string): (r: seq<JobCard>)
    ensures |r| == |cs|
    ensures CardIds(r) == CardIds(cs)
  {
    seq(|cs|, k requires 0 <= k < |cs| => if cs[k].jobId == jobId then EditedCard(cs[k], form, now) else cs[k])
  }

  /**
   * `saveCardChanges`. Without a truthy editing board id and an editing card
   * nothing happens. Otherwise, on every board with the editing id, each card
   * carrying the edited job id becomes `EditedCard`; then the modal closes.
   */
  function SaveCardChanges(v: View, now: string): (r: View)
    ensures !(IsSet(v.editingBoardId) && v.editingCard.Some?) ==> r == v
    ensures IsSet(v.editingBoardId) && v.editingCard.Some? ==>
      r.editingCard.None? && r.editingBoardId.None? &&
      r.(boards := v.boards, editingCard := v.editingCard, editingBoardId := v.editingBoardId) == v
    ensures SameColumns(v.boards, r.boards)
  {
    if !IsSet(v.editingBoardId) || v.editingCard.None? then v
    else
      var eb, jobId := v.editingBoardId.value, v.editingCard.value.jobId;
      var bs := seq(|v.boards|, i requires 0 <= i < |v.boards| =>
        if v.boards[i].id == eb then v.boards[i].(cards := EditedCards(v.boards[i].cards, jobId, v.editForm, now))
        else v.boards[i]);
      CloseEditModal(v.(boards := bs))
  }

  /**
   * A save rewrites only the edited job's cards on the editing board: each
   * becomes `EditedCard` of itself, so it takes the form's fields and `now`,
   * keeps id, status, author and creation time, and its counter grows by one
   * exactly when a driver is set on a card that had none. Every other card and
   * board is untouched. The job ids, card positions and the status invariant
   * survive.
   */
  lemma {:induction false} SaveEditsOnlyMatching(v: View, now: string)
    requires IsSet(v.editingBoardId) && v.editingCard.Some?
    ensures
      var bs, r := v.boards, SaveCardChanges(v, now).boards;
      var eb, jobId, form := v.editingBoardId.value, v.editingCard.value.jobId, v.editForm;
      forall i, k :: 0 <= i < |bs| && 0 <= k < |bs[i].cards| ==>
        var c, e := bs[i].cards[k], r[i].cards[k];
        if bs[i].id == eb && c.jobId == jobId then
          && e.jobId == c.jobId && e.status == c.status && e.createdBy == c.createdBy
          && e.createdDateTime == c.createdDateTime
          && e.details == form.details && e.driverId == form.driverId && e.updatedDateTime == now
          && e == EditedCard(c, form, now)
          && e.driverAssignedCount ==
               if form.driverId != "" && c.driverId == "" then c.driverAssignedCount + 1 else c.driverAssignedCount
        else e == c
    ensures
      var bs, r := v.boards, SaveCardChanges(v, now).boards;
      forall i :: 0 <= i < |bs| ==> |r[i].cards| == |bs[i].cards| && (bs[i].id != v.editingBoardId.value ==> r[i] == bs[i])
    ensures multiset(AllIds(SaveCardChanges(v, now).boards)) == multiset(AllIds(v.boards))
    ensures StatusMatchesTitle(v.boards) ==> StatusMatchesTitle(SaveCardChanges(v, now).boards)
  {
    var bs, r := v.boards, SaveCardChanges(v, now).boards;
    forall i, k | 0 <= i < |bs| && 0 <= k < |bs[i].cards|
      ensures bs[i].id == v.editingBoardId.value && bs[i].cards[k].jobId == v.editingCard.value.jobId ==>
        r[i].cards[k].driverAssignedCount ==
          if v.editForm.driverId != "" && bs[i].cards[k].driverId == "" then bs[i].cards[k].driverAssignedCount + 1
          else bs[i].cards[k].driverAssignedCount
    {
      AssignmentCount(bs[i].cards[k], v.editForm, now);
    }
    SameIdsSameAllIds(bs, r);
  }

  /** Boards whose cards carry the same ids, board by board, carry the same ids overall. */
  lemma {:induction false} SameIdsSameAllIds(a: seq<Column>, b: seq<Column>)
    requires |a| == |b|
    requires forall i :: 0 <= i < |a| ==> CardIds(a[i].cards) == CardIds(b[i].cards)
    ensures AllIds(a) == AllIds(b)
  {
    if |a| > 0 {
      SameIdsSameAllIds(a[1..], b[1..]);
    }
  }

  /**
   * Opening the modal on a card of a board and saving straight away changes
   * that card only in its update time: the form mirrors the card, so the
   * driver and the counter stay as they were.
   */
  lemma {:induction false} OpenThenSaveOnlyRestamps(v: View, i: nat, k: nat, now: string)
    requires i < |v.boards| && k < |v.boards[i].cards| && v.boards[i].id != 0
    ensures
      var c := v.boards[i].cards[k];
      SaveCardChanges(OpenEditModal(v, c, v.boards[i].id), now).boards[i].cards[k] == c.(updatedDateTime := now)
  {
  }

  // ---------------------------------------------------------------------
  // A sequence of edits to one card
  // ---------------------------------------------------------------------

  /** The card after saving the edit forms `forms`, one after another. */
  function ApplyEdits(c: JobCard, forms: seq<EditForm>, now: string): (r: JobCard)
    ensures r.jobId == c.jobId && r.status == c.status
    ensures r.driverId == if |forms| == 0 then c.driverId else forms[|forms| - 1].driverId
  {
    if |forms| == 0 then c else EditedCard(ApplyEdits(c, forms[..|forms| - 1], now), forms[|forms| - 1], now)
  }

  /** The driver a card has just before the edit at `i`: the initial one, or the previous form's. */
  function DriverBefore(initial: string, forms: seq<EditForm>, i: nat): string
    requires i < |forms|
  {
    if i == 0 then initial else forms[i - 1].driverId
  }

  /** The positions of the edits that assign a driver to an unassigned card. */
  function Assignments(initial: string, forms: seq<EditForm>): set<nat> {
    set i: nat | i < |forms| && forms[i].driverId != "" && DriverBefore(initial, forms, i) == ""
  }

  /** The assignments among `forms` are those among all but the last edit, plus the last if it assigns. */
  lemma {:induction false} AssignmentsSnoc(initial: string, forms: seq<EditForm>)
    requires |forms| > 0
    ensures
      var n := |forms| - 1;
      var last := forms[n].driverId != "" && DriverBefore(initial, forms, n) == "";
      Assignments(initial, forms) == Assignments(initial, forms[..n]) + (if last then {n} else {})
  {
    var n := |forms| - 1;
    var pre := forms[..n];
    var a, ap := Assignments(initial, forms), Assignments(initial, pre);
    forall i: nat | i < n ensures (i in a <==> i in ap) {
      assert forms[i] == pre[i];
      assert DriverBefore(initial, forms, i) == DriverBefore(initial, pre, i);
    }
  }

  /**
   * Over any sequence of saved edits, the counter grows by exactly the number
   * of unassigned-to-assigned transitions among them.
   */
  lemma {:induction false} ReplayCountsAssignments(c: JobCard, forms: seq<EditForm>, now: string)
    ensures ApplyEdits(c, forms, now).driverAssignedCount == c.driverAssignedCount + |Assignments(c.driverId, forms)|
  {
    if |forms| > 0 {
      var n := |forms| - 1;
      var pre := forms[..n];
      ReplayCountsAssignments(c, pre, now);
      var before := ApplyEdits(c, pre, now);
      assert ApplyEdits(c, forms, now) == EditedCard(before, forms[n], now);
      AssignmentCount(before, forms[n], now);
      assert before.driverId == DriverBefore(c.driverId, forms, n);
      AssignmentsSnoc(c.driverId, forms);
      assert n !in Assignments(c.driverId, pre);
    }
  }

  // ---------------------------------------------------------------------
  // The initial state and concrete runs
  // ---------------------------------------------------------------------

  /** The component's initial boards: four columns and five jobs. */
  function SeedColumns(): (r: seq<Column>)
    ensures |r| == 4 && forall i :: 0 <= i < |r| ==> r[i].id == i + 1
    ensures r[0].title == "Pending" && r[1].title == "Assigned" && r[2].title == "In Transit" && r[3].title == "Completed"
    ensures |r[0].cards| == 2 && |r[1].cards| == 1 && |r[2].cards| == 1 && |r[3].cards| == 1
  {
    [ Board(1, "Pending", [SeedJob1(), SeedJob2()]),
      Board(2, "Assigned", [SeedJob3()]),
      Board(3, "In Transit", [SeedJob4()]),
      Board(4, "Completed", [SeedJob5()]) ]
  }

  function SeedJob1(): JobCard {
    Card("JOB-1704800001-123",
      CardDetails("Electronics Package - Laptop", "Tech Store Sydney", "123 George St", "", "are1",
        "ABC Corp", "456 Pitt St", "Level 5", "are2", "+61 2 9876 5432", "red", "Receiver", 1, "No", "Website"),
      "John Smith", "", 0, "Pending", "2024-01-09T09:30:00", "2024-01-09T09:30:00")
  }

  function SeedJob2(): JobCard {
    Card("JOB-1704800002-456",
      CardDetails("Documents - Legal Papers", "Law Firm Melbourne", "789 Collins St", "Suite 10", "area3",
        "Court House", "321 Lonsdale St", "", "are1", "+61 3 8765 4321", "yellow", "Sender", 2, "Yes", "Phone"),
      "Sarah Johnson", "", 0, "Pending", "2024-01-09T10:15:00", "2024-01-09T10:15:00")
  }

  function SeedJob3(): JobCard {
    Card("JOB-1704800003-789",
      CardDetails("Medical Supplies", "MedSupply Co", "111 Crown St", "", "are2",
        "City Hospital", "222 Health Ave", "Building B", "are3", "+61 2 9111 2222", "red", "Receiver", 3, "No", "Website"),
      "John Smith", "Driver-001", 1, "Assigned", "2024-01-09T08:00:00", "2024-01-09T11:00:00")
  }

  function SeedJob4(): JobCard {
    Card("JOB-1704800004-012",
      CardDetails("Clothing - Fashion Items", "Fashion Boutique", "555 Oxford St", "Shop 2", "are1",
        "Customer Residence", "888 Park Rd", "", "are2", "+61 4 3333 4444", "green", "Sender", 1, "No", "Website"),
      "Sarah Johnson", "Driver-002", 1, "In Transit", "2024-01-08T14:30:00", "2024-01-09T09:00:00")
  }

  function SeedJob5(): JobCard {
    Card("JOB-1704800005-345",
      CardDetails("Books - Educational Materials", "University Bookstore", "999 Campus Dr", "Building 5", "are3",
        "Student Housing", "777 College Ave", "Room 101", "are1", "+61 4 5555 6666", "green", "Receiver", 1, "No", "Phone"),
      "John Smith", "Driver-003", 1, "Completed", "2024-01-07T10:00:00", "2024-01-08T15:30:00")
  }

  /** The initial component state: nothing dragged, no form or modal open, a blank edit form. */
  function InitialView(): (r: View)
    ensures r.boards == SeedColumns()
    ensures r.draggedCard.None? && r.draggedFromBoard.None? && r.showNewCard.None?
    ensures r.editingCard.None? && r.editingBoardId.None?
    ensures r.editForm.driverId == "" && r.editForm.details.pricing == 1 && r.editForm.details.priority == "green"
    ensures forall t :: !DropAccepted(r, t)
    ensures forall now :: SaveCardChanges(r, now) == r
  {
    View(SeedColumns(), None, None, None, None, None,
      EditForm(CardDetails("", "", "", "", "are1", "", "", "", "are1", "", "green", "Sender", 1, "No", "Website"), ""))
  }

  /** The seed has distinct board ids, matching statuses and five jobs. */
  lemma {:induction false} SeedInvariants()
    ensures UniqueBoardIds(SeedColumns()) && StatusMatchesTitle(SeedColumns())
    ensures TotalCards(SeedColumns()) == 5
  {
  }

  /**
   * Picking up the first pending job and dropping it back on "Pending" loses
   * it: the column keeps one card and the boards four.
   */
  lemma {:induction false} SeedDropOntoOwnColumn(now: string)
    ensures
      var bs := SeedColumns();
      var r := HandleDrop(HandleDragStart(InitialView(), bs[0].cards[0], 1), 1, now).boards;
      r == bs[0 := bs[0].(cards := [bs[0].cards[1]])] && TotalCards(r) == 4
  {
    var bs := SeedColumns();
    var v := HandleDragStart(InitialView(), bs[0].cards[0], 1);
    var cs := bs[0].cards;
    SeedInvariants();
    assert WithoutJob(cs, cs[0].jobId) == [cs[1]] by {
      assert cs[1..][1..] == [];
    }
    assert CardIds(cs) == [cs[0].jobId, cs[1].jobId];
    DropOntoOwnColumnDeletesCard(v, now, 0);
  }

  /**
   * Dragging the first pending job to "Assigned" leaves one card on
   * "Pending" and puts the job last on "Assigned" with status "Assigned".
   */
  lemma {:induction false} SeedMoveToAssigned(now: string)
    ensures
      var c := SeedColumns()[0].cards[0];
      var r := HandleDrop(HandleDragStart(InitialView(), c, 1), 2, now).boards;
      && r[0].cards == [SeedColumns()[0].cards[1]]
      && r[1].cards == SeedColumns()[1].cards + [c.(status := "Assigned", updatedDateTime := now)]
  {
  }

  /**
   * Assigning "Driver-001" to the unassigned first pending job raises its
   * counter from 0 to 1 and stamps it with `now`; reassigning the job on
   * "Assigned" to another driver, or unassigning it, leaves its counter at 1.
   */
  lemma {:induction false} SeedAssignDriver(now: string)
    ensures
      var c := SeedColumns()[0].cards[0];
      var v := OpenEditModal(InitialView(), c, 1);
      var e := SaveCardChanges(v.(editForm := v.editForm.(driverId := "Driver-001")), now).boards[0].cards[0];
      e.driverId == "Driver-001" && e.driverAssignedCount == 1 && e.updatedDateTime == now
    ensures
      var c := SeedColumns()[1].cards[0];
      var v := OpenEditModal(InitialView(), c, 2);
      && SaveCardChanges(v.(editForm := v.editForm.(driverId := "Driver-002")), now).boards[1].cards[0].driverAssignedCount == 1
      && SaveCardChanges(v.(editForm := v.editForm.(driverId := "")), now).boards[1].cards[0].driverAssignedCount == 1
  {
  }
}
