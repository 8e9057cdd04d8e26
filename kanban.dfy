/**
 * The vocabulary shared by the record store and the dashboard: a card is a
 * delivery job, a board is a status column holding an ordered list of cards.
 * The lookups here are the `find`, `findIndex` and `filter` calls both
 * components make over boards and cards.
 */
module Kanban {

  datatype Option<T> = None | Some(value: T)

  /**
   * A delivery job. `D` is the descriptive payload (parcel, pickup and
   * delivery locations, commercial terms); the store and the dashboard
   * declare different field sets for it.
   */
  datatype Card<D> = Card(
    jobId: string,
    details: D,
    createdBy: string,
    driverId: string,
    driverAssignedCount: int,
    status: string,
    createdDateTime: string,
    updatedDateTime: string)

  /** A status column: its `title` doubles as the status of the cards it holds. */
  datatype Board<D> = Board(id: int, title: string, cards: seq<Card<D>>)

  // ---------------------------------------------------------------------
  // Job ids of cards and of whole board collections
  // ---------------------------------------------------------------------

  /** The job ids of `cs`, position by position. */
  function CardIds<D>(cs: seq<Card<D>>): (r: seq<string>)
    ensures |r| == |cs|
    ensures forall k :: 0 <= k < |cs| ==> r[k] == cs[k].jobId
  {
    if |cs| == 0 then [] else [cs[0].jobId] + CardIds(cs[1..])
  }

  predicate HasJob<D>(cs: seq<Card<D>>, jobId: string) {
    jobId in CardIds(cs)
  }

  function TotalCards<D>(bs: seq<Board<D>>): nat {
    if |bs| == 0 then 0 else |bs[0].cards| + TotalCards(bs[1..])
  }

  /** The job ids of every card on every board, board by board. */
  function AllIds<D>(bs: seq<Board<D>>): (r: seq<string>)
    ensures |r| == TotalCards(bs)
  {
    if |bs| == 0 then [] else CardIds(bs[0].cards) + AllIds(bs[1..])
  }

  /** How many cards, over all boards, carry `jobId`. */
  function JobCount<D>(bs: seq<Board<D>>, jobId: string): nat {
    multiset(AllIds(bs))[jobId]
  }

  ghost predicate UniqueJobIds<D>(bs: seq<Board<D>>) {
    forall jobId :: JobCount(bs, jobId) <= 1
  }

  // ---------------------------------------------------------------------
  // Column-level invariants
  // ---------------------------------------------------------------------

  /** `b` has the same boards as `a`, in the same order, with the same ids and titles. */
  predicate SameColumns<D>(a: seq<Board<D>>, b: seq<Board<D>>) {
    |a| == |b| && forall i :: 0 <= i < |a| ==> a[i].id == b[i].id && a[i].title == b[i].title
  }

  /** Every card's status is the title of the board holding it. */
  predicate StatusMatchesTitle<D>(bs: seq<Board<D>>) {
    forall i, k :: 0 <= i < |bs| && 0 <= k < |bs[i].cards| ==> bs[i].cards[k].status == bs[i].title
  }

  predicate UniqueBoardIds<D>(bs: seq<Board<D>>) {
    forall i, j :: 0 <= i < j < |bs| ==> bs[i].id != bs[j].id
  }

  // ---------------------------------------------------------------------
  // Lookups
  // ---------------------------------------------------------------------

  /** `boards.find(b => b.id === id)`, as the index of the first board with that id. */
  function FindBoard<D>(bs: seq<Board<D>>, id: int): (r: Option<nat>)
    ensures r.None? <==> forall j :: 0 <= j < |bs| ==> bs[j].id != id
    ensures r.Some? ==> r.value < |bs| && bs[r.value].id == id
    ensures r.Some? ==> forall j :: 0 <= j < r.value ==> bs[j].id != id
  {
    if |bs| == 0 then None
    else if bs[0].id == id then Some(0)
    else match FindBoard(bs[1..], id)
      case None => None
      case Some(j) => Some(j + 1)
  }

  /** `cards.findIndex(c => c.jobId === jobId)`, with `None` for -1. */
  function FindCardIndex<D>(cs: seq<Card<D>>, jobId: string): (r: Option<nat>)
    ensures r.None? <==> !HasJob(cs, jobId)
    ensures r.Some? ==> r.value < |cs| && cs[r.value].jobId == jobId
    ensures r.Some? ==> forall m :: 0 <= m < r.value ==> cs[m].jobId != jobId
  {
    if |cs| == 0 then None
    else if cs[0].jobId == jobId then Some(0)
    else match FindCardIndex(cs[1..], jobId)
      case None => None
      case Some(k) => Some(k + 1)
  }

  /**
   * The first position, scanning boards from index `from` in order and each
   * board's cards in order, of a card carrying `jobId`: the board index and
   * the card index within it.
   */
  function Locate<D>(bs: seq<Board<D>>, jobId: string, from: nat): (r: Option<(nat, nat)>)
    requires from <= |bs|
    decreases |bs| - from
    ensures r.None? <==> forall j :: from <= j < |bs| ==> !HasJob(bs[j].cards, jobId)
    ensures r.Some? ==>
      var (i, k) := r.value;
      && from <= i < |bs| && k < |bs[i].cards| && bs[i].cards[k].jobId == jobId
      && (forall j :: from <= j < i ==> !HasJob(bs[j].cards, jobId))
      && (forall m :: 0 <= m < k ==> bs[i].cards[m].jobId != jobId)
  {
    if from == |bs| then None
    else match FindCardIndex(bs[from].cards, jobId)
      case Some(k) => Some((from, k))
      case None => Locate(bs, jobId, from + 1)
  }

  /** `cards.filter(c => c.jobId !== jobId)`. */
  function WithoutJob<D>(cs: seq<Card<D>>, jobId: string): (r: seq<Card<D>>)
    ensures |r| <= |cs|
    ensures forall k :: 0 <= k < |r| ==> r[k].jobId != jobId && r[k] in cs
  {
    if |cs| == 0 then []
    else if cs[0].jobId == jobId then WithoutJob(cs[1..], jobId)
    else [cs[0]] + WithoutJob(cs[1..], jobId)
  }

  // ---------------------------------------------------------------------
  // Lemmas
  // ---------------------------------------------------------------------

  lemma {:induction false} MultisetCancel(a: multiset<string>, b: multiset<string>, c: multiset<string>)
    requires a + c == b + c
    ensures a == b
  {
    forall x ensures a[x] == b[x] {
      assert (a + c)[x] == (b + c)[x];
    }
  }

  lemma {:induction false} CardIdsConcat<D>(a: seq<Card<D>>, b: seq<Card<D>>)
    ensures CardIds(a + b) == CardIds(a) + CardIds(b)
  {
    assert |CardIds(a + b)| == |CardIds(a) + CardIds(b)|;
    forall k | 0 <= k < |a + b| ensures CardIds(a + b)[k] == (CardIds(a) + CardIds(b))[k] {
      if k < |a| { assert (a + b)[k] == a[k]; } else { assert (a + b)[k] == b[k - |a|]; }
    }
  }

  /** Overwriting a card by one with the same job id keeps the ids. */
  lemma {:induction false} CardIdsUpdate<D>(cs: seq<Card<D>>, k: nat, c: Card<D>)
    requires k < |cs| && c.jobId == cs[k].jobId
    ensures CardIds(cs[k := c]) == CardIds(cs)
  {
    var a, b := CardIds(cs[k := c]), CardIds(cs);
    assert forall m :: 0 <= m < |cs| ==> a[m] == b[m];
  }

  /** The filter leaves no card carrying `jobId`, and keeps every other card. */
  lemma {:induction false} WithoutJobMembers<D>(cs: seq<Card<D>>, jobId: string)
    ensures !HasJob(WithoutJob(cs, jobId), jobId)
    ensures forall k :: 0 <= k < |cs| && cs[k].jobId != jobId ==> cs[k] in WithoutJob(cs, jobId)
  {
    var r := WithoutJob(cs, jobId);
    assert forall k :: 0 <= k < |r| ==> CardIds(r)[k] != jobId;
    if |cs| > 0 {
      WithoutJobMembers(cs[1..], jobId);
      assert forall k :: 1 <= k < |cs| ==> cs[k] == cs[1..][k - 1];
    }
  }

  /** The filter drops exactly the cards carrying `jobId`; with none, it changes nothing. */
  lemma {:induction false} WithoutJobCount<D>(cs: seq<Card<D>>, jobId: string)
    ensures |WithoutJob(cs, jobId)| + multiset(CardIds(cs))[jobId] == |cs|
    ensures !HasJob(cs, jobId) ==> WithoutJob(cs, jobId) == cs
  {
    WithoutJobLength(cs, jobId);
    if !HasJob(cs, jobId) {
      WithoutAbsentJob(cs, jobId);
    }
  }

  lemma {:induction false} WithoutJobLength<D>(cs: seq<Card<D>>, jobId: string)
    ensures |WithoutJob(cs, jobId)| + multiset(CardIds(cs))[jobId] == |cs|
  {
    if |cs| > 0 {
      var ids, rest := CardIds(cs), CardIds(cs[1..]);
      WithoutJobLength(cs[1..], jobId);
      assert ids == [cs[0].jobId] + rest;
      assert multiset(ids)[jobId] == multiset{cs[0].jobId}[jobId] + multiset(rest)[jobId];
    }
  }

  lemma {:induction false} WithoutAbsentJob<D>(cs: seq<Card<D>>, jobId: string)
    requires !HasJob(cs, jobId)
    ensures WithoutJob(cs, jobId) == cs
  {
    if |cs| > 0 {
      assert cs[0].jobId == CardIds(cs)[0];
      assert !HasJob(cs[1..], jobId) by {
        forall k | 0 <= k < |cs| - 1 ensures CardIds(cs[1..])[k] != jobId {
          assert CardIds(cs[1..])[k] == CardIds(cs)[k + 1];
        }
      }
      WithoutAbsentJob(cs[1..], jobId);
      assert cs == [cs[0]] + cs[1..];
    }
  }

  /** The filter removes every occurrence of `jobId` from the job ids and touches no other id. */
  lemma {:induction false} WithoutJobIds<D>(cs: seq<Card<D>>, jobId: string)
    ensures multiset(CardIds(WithoutJob(cs, jobId))) == multiset(CardIds(cs))[jobId := 0]
  {
    if |cs| > 0 {
      WithoutJobIds(cs[1..], jobId);
      assert CardIds(cs) == [cs[0].jobId] + CardIds(cs[1..]);
      if cs[0].jobId != jobId {
        assert CardIds(WithoutJob(cs, jobId)) == [cs[0].jobId] + CardIds(WithoutJob(cs[1..], jobId));
      }
    }
  }

  /** Splicing card `k` out of `cs` removes one occurrence of its job id. */
  lemma {:induction false} SpliceIds<D>(cs: seq<Card<D>>, k: nat)
    requires k < |cs|
    ensures multiset(CardIds(cs)) == multiset(CardIds(cs[..k] + cs[k + 1..])) + multiset{cs[k].jobId}
  {
    var pre, post := cs[..k], cs[k + 1..];
    assert cs == pre + ([cs[k]] + post);
    CardIdsConcat(pre, [cs[k]] + post);
    CardIdsConcat([cs[k]], post);
    CardIdsConcat(pre, post);
    var ip, ipost := CardIds(pre), CardIds(post);
    assert CardIds(cs) == ip + ([cs[k].jobId] + ipost);
    assert CardIds(pre + post) == ip + ipost;
    assert multiset(ip + ([cs[k].jobId] + ipost)) == multiset(ip) + (multiset{cs[k].jobId} + multiset(ipost));
    assert multiset(ip + ipost) == multiset(ip) + multiset(ipost);
  }

  /** A multiset holding `x` once is the rest plus `x`. */
  lemma {:induction false} RemoveSingle(m: multiset<string>, x: string)
    requires m[x] == 1
    ensures m == m[x := 0] + multiset{x}
  {
    forall y ensures m[y] == (m[x := 0] + multiset{x})[y] {
    }
  }

  /** Replacing board `i` by one carrying the same ids plus `x` adds `x` to the job ids. */
  lemma {:induction false} ReplaceBoardAddsOne<D>(bs: seq<Board<D>>, i: nat, b: Board<D>, x: string)
    requires i < |bs|
    requires multiset(CardIds(b.cards)) == multiset(CardIds(bs[i].cards)) + multiset{x}
    ensures multiset(AllIds(bs[i := b])) == multiset(AllIds(bs)) + multiset{x}
  {
    ReplaceBoard(bs, i, b);
    MultisetCancel(multiset(AllIds(bs[i := b])), multiset(AllIds(bs)) + multiset{x}, multiset(CardIds(bs[i].cards)));
  }

  /**
   * Taking one job id off board `f` and putting it on another board `t` keeps
   * the multiset of job ids and the card count.
   */
  lemma {:induction false} TransferOneId<D>(bs: seq<Board<D>>, f: nat, t: nat, bf: Board<D>, bt: Board<D>, jobId: string)
    requires f < |bs| && t < |bs| && f != t
    requires multiset(CardIds(bs[f].cards)) == multiset(CardIds(bf.cards)) + multiset{jobId}
    requires multiset(CardIds(bt.cards)) == multiset(CardIds(bs[t].cards)) + multiset{jobId}
    ensures multiset(AllIds(bs[f := bf][t := bt])) == multiset(AllIds(bs))
    ensures TotalCards(bs[f := bf][t := bt]) == TotalCards(bs)
  {
    var b1 := bs[f := bf];
    ReplaceBoardAddsOne(b1, f, bs[f], jobId);
    assert b1[f := bs[f]] == bs;
    ReplaceBoardAddsOne(b1, t, bt, jobId);
    assert |multiset(AllIds(b1[t := bt]))| == |multiset(AllIds(bs))|;
  }

  /** Filtering keeps the order of the cards it keeps: it distributes over concatenation. */
  lemma {:induction false} WithoutJobConcat<D>(a: seq<Card<D>>, b: seq<Card<D>>, jobId: string)
    ensures WithoutJob(a + b, jobId) == WithoutJob(a, jobId) + WithoutJob(b, jobId)
  {
    if |a| == 0 {
      assert a + b == b;
    } else {
      assert (a + b)[0] == a[0];
      assert (a + b)[1..] == a[1..] + b;
      WithoutJobConcat(a[1..], b, jobId);
    }
  }

  /** A job id occurs among all ids exactly when some board holds it. */
  lemma {:induction false} InAllIds<D>(bs: seq<Board<D>>, jobId: string)
    ensures jobId in AllIds(bs) <==> exists j :: 0 <= j < |bs| && HasJob(bs[j].cards, jobId)
  {
    if |bs| > 0 {
      var rest := bs[1..];
      InAllIds(rest, jobId);
      assert AllIds(bs) == CardIds(bs[0].cards) + AllIds(rest);
      if exists j :: 0 < j < |bs| && HasJob(bs[j].cards, jobId) {
        var j :| 0 < j < |bs| && HasJob(bs[j].cards, jobId);
        assert rest[j - 1] == bs[j];
      }
      if exists j :: 0 <= j < |rest| && HasJob(rest[j].cards, jobId) {
        var j :| 0 <= j < |rest| && HasJob(rest[j].cards, jobId);
        assert rest[j] == bs[j + 1];
      }
    }
  }

  /** No card carries `jobId` exactly when no board holds one. */
  lemma {:induction false} JobCountZero<D>(bs: seq<Board<D>>, jobId: string)
    ensures JobCount(bs, jobId) == 0 <==> forall j :: 0 <= j < |bs| ==> !HasJob(bs[j].cards, jobId)
  {
    InAllIds(bs, jobId);
  }

  lemma {:induction false} AllIdsConcat<D>(a: seq<Board<D>>, b: seq<Board<D>>)
    ensures AllIds(a + b) == AllIds(a) + AllIds(b)
    ensures TotalCards(a + b) == TotalCards(a) + TotalCards(b)
  {
    if |a| == 0 {
      assert a + b == b;
    } else {
      assert (a + b)[0] == a[0];
      assert (a + b)[1..] == a[1..] + b;
      AllIdsConcat(a[1..], b);
    }
  }

  /** The job ids of the boards, split around board `i`. */
  lemma {:induction false} AllIdsAround<D>(bs: seq<Board<D>>, i: nat)
    requires i < |bs|
    ensures AllIds(bs) == AllIds(bs[..i]) + CardIds(bs[i].cards) + AllIds(bs[i + 1..])
    ensures TotalCards(bs) == TotalCards(bs[..i]) + |bs[i].cards| + TotalCards(bs[i + 1..])
  {
    assert bs == bs[..i] + ([bs[i]] + bs[i + 1..]);
    AllIdsConcat(bs[..i], [bs[i]] + bs[i + 1..]);
    AllIdsConcat([bs[i]], bs[i + 1..]);
    assert AllIds([bs[i]]) == CardIds(bs[i].cards) + AllIds([bs[i]][1..]);
    assert TotalCards([bs[i]]) == |bs[i].cards| + TotalCards([bs[i]][1..]);
  }

  /**
   * Replacing one board changes the multiset of job ids and the card count by
   * exactly the difference between the old and the new board's cards.
   */
  lemma {:induction false} ReplaceBoard<D>(bs: seq<Board<D>>, i: nat, b: Board<D>)
    requires i < |bs|
    ensures multiset(AllIds(bs[i := b])) + multiset(CardIds(bs[i].cards))
         == multiset(AllIds(bs)) + multiset(CardIds(b.cards))
    ensures TotalCards(bs[i := b]) + |bs[i].cards| == TotalCards(bs) + |b.cards|
  {
    var bs' := bs[i := b];
    AllIdsAround(bs, i);
    AllIdsAround(bs', i);
    assert bs'[..i] == bs[..i] && bs'[i + 1..] == bs[i + 1..];
  }

  /** Replacing a board by one whose cards carry the same ids keeps the job ids of the collection. */
  lemma {:induction false} ReplaceBoardSameIds<D>(bs: seq<Board<D>>, i: nat, b: Board<D>)
    requires i < |bs| && CardIds(b.cards) == CardIds(bs[i].cards)
    ensures AllIds(bs[i := b]) == AllIds(bs)
    ensures TotalCards(bs[i := b]) == TotalCards(bs)
  {
    var bs' := bs[i := b];
    AllIdsAround(bs, i);
    AllIdsAround(bs', i);
    assert bs'[..i] == bs[..i] && bs'[i + 1..] == bs[i + 1..];
  }

  /**
   * Filtering `jobId` out of board `i` lowers that id's count by its number
   * of cards on the board, and leaves every other id's count alone.
   */
  lemma {:induction false} FilterBoardCounts<D>(bs: seq<Board<D>>, i: nat, jobId: string)
    requires i < |bs|
    ensures
      var r, n := bs[i := bs[i].(cards := WithoutJob(bs[i].cards, jobId))], multiset(CardIds(bs[i].cards))[jobId];
      && JobCount(r, jobId) + n == JobCount(bs, jobId)
      && (forall x :: x != jobId ==> JobCount(r, x) == JobCount(bs, x))
      && TotalCards(r) + n == TotalCards(bs)
  {
    var b := bs[i].(cards := WithoutJob(bs[i].cards, jobId));
    var r := bs[i := b];
    ReplaceBoard(bs, i, b);
    WithoutJobIds(bs[i].cards, jobId);
    WithoutJobLength(bs[i].cards, jobId);
    var mb, mr, ms := multiset(CardIds(bs[i].cards)), multiset(AllIds(r)), multiset(AllIds(bs));
    assert mr + mb == ms + mb[jobId := 0];
    assert (mr + mb)[jobId] == (ms + mb[jobId := 0])[jobId];
    forall x | x != jobId ensures mr[x] == ms[x] {
      assert (mr + mb)[x] == (ms + mb[jobId := 0])[x];
    }
  }

  /** Collections with the same multiset of job ids are alike in having no id twice. */
  lemma {:induction false} SameIdsKeepUnique<D>(a: seq<Board<D>>, b: seq<Board<D>>)
    requires multiset(AllIds(a)) == multiset(AllIds(b))
    ensures UniqueJobIds(a) ==> UniqueJobIds(b)
  {
    if UniqueJobIds(a) {
      forall x ensures JobCount(b, x) <= 1 {
        assert JobCount(b, x) == JobCount(a, x);
      }
    }
  }

  /** Replacing a board by one with the same id and title keeps the columns. */
  lemma {:induction false} ReplaceKeepsColumns<D>(bs: seq<Board<D>>, i: nat, b: Board<D>)
    requires i < |bs| && b.id == bs[i].id && b.title == bs[i].title
    ensures SameColumns(bs, bs[i := b])
  {
  }

  /** Boards with the same ids in the same order are searched alike. */
  lemma {:induction false} FindBoardSameColumns<D>(a: seq<Board<D>>, b: seq<Board<D>>, id: int)
    requires SameColumns(a, b)
    ensures FindBoard(a, id) == FindBoard(b, id)
  {
    if |a| > 0 && a[0].id != id {
      assert SameColumns(a[1..], b[1..]) by {
        forall j | 0 <= j < |a[1..]| ensures a[1..][j].id == b[1..][j].id && a[1..][j].title == b[1..][j].title {
          assert a[1..][j] == a[j + 1] && b[1..][j] == b[j + 1];
        }
      }
      FindBoardSameColumns(a[1..], b[1..], id);
    }
  }

  /** With unique ids, the board `FindBoard` returns is the only one with that id. */
  lemma {:induction false} FindBoardUnique<D>(bs: seq<Board<D>>, id: int, j: nat)
    requires UniqueBoardIds(bs)
    requires j < |bs| && bs[j].id == id
    ensures FindBoard(bs, id) == Some(j)
  {
  }
}
