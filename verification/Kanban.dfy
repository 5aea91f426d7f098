/** The kanban board: a column machine with a TDD gate, for the cards of one project. */
module Kanban {

  datatype Column = Backlog | Todo | InProgress | Review | Done

  /** A column name given by a caller; `Unknown` is any name that is not a column. */
  datatype Target = Known(column: Column) | Unknown

  datatype Card = Card(board: nat, column: Column, gate: bool, blocked: bool, reason: string)

  /** What the engine publishes. */
  datatype Event =
    | Moved(card: nat, from: Column, to: Column)
    | Blocked(card: nat, column: Column, reason: string)

  datatype Board = Board(cards: map<nat, Card>, nextId: nat, nextBoard: nat, events: seq<Event>)

  const GATE_REASON := "TDD gate not passed: cannot move to 'Done' without green tests"

  function Index(c: Column): nat {
    match c
    case Backlog => 0
    case Todo => 1
    case InProgress => 2
    case Review => 3
    case Done => 4
  }

  /** A move is refused for an unknown card or column, for a jump over a column, and into Done without gate. */
  predicate MayMove(cards: map<nat, Card>, id: nat, to: Target) {
    && to.Known?
    && id in cards
    && (to.column == cards[id].column ||
        ((to.column == Done ==> cards[id].gate) && Index(to.column) <= Index(cards[id].column) + 1))
  }

  function Put(b: Board, id: nat, column: Column): Board
    requires id in b.cards
  {
    b.(cards := b.cards[id := b.cards[id].(column := column)])
  }

  /** The engine's move: a changed column is announced, a refused move into Done is announced as blocked. */
  function MoveTo(b: Board, id: nat, to: Target): Board {
    if MayMove(b.cards, id, to) then
      var from := b.cards[id].column;
      if from == to.column then b
      else Put(b, id, to.column).(events := b.events + [Moved(id, from, to.column)])
    else if to == Known(Done) && id in b.cards then
      b.(events := b.events + [Blocked(id, b.cards[id].column, GATE_REASON)])
    else b
  }

  function PassGate(b: Board, id: nat): Board {
    if id in b.cards then b.(cards := b.cards[id := b.cards[id].(gate := true)]) else b
  }

  function Block(b: Board, id: nat, reason: string): Board {
    if id in b.cards then
      b.(cards := b.cards[id := b.cards[id].(blocked := true, reason := reason)],
         events := b.events + [Blocked(id, b.cards[id].column, reason)])
    else b
  }

  function CreateCard(b: Board, board: nat): Board {
    b.(cards := b.cards[b.nextId := Card(board, Backlog, false, false, "")], nextId := b.nextId + 1)
  }

  /** The board after `begin_work`; the boolean says that no error was raised. */
  function AfterBegin(b: Board, id: nat): (Board, bool) {
    if !MayMove(b.cards, id, Known(Todo)) then (b, false)
    else
      var b' := MoveTo(b, id, Known(Todo));
      (MoveTo(b', id, Known(InProgress)), MayMove(b'.cards, id, Known(InProgress)))
  }

  function AfterComplete(b: Board, id: nat): (Board, bool) {
    if !MayMove(b.cards, id, Known(Review)) then (b, false)
    else
      var b' := PassGate(MoveTo(b, id, Known(Review)), id);
      (MoveTo(b', id, Known(Done)), MayMove(b'.cards, id, Known(Done)))
  }

  // ---------------------------------------------------------------------------------------------
  // The store and the engine
  // ---------------------------------------------------------------------------------------------

  class KanbanStore {
    var cards: map<nat, Card>
    var nextId: nat
    var nextBoard: nat

    constructor ()
      ensures cards == map[] && nextId == 1 && nextBoard == 1
    {
      cards, nextId, nextBoard := map[], 1, 1;
    }

    method CreateBoard() returns (id: nat)
      modifies `nextBoard
      ensures id == old(nextBoard) && nextBoard == old(nextBoard) + 1
    {
      id, nextBoard := nextBoard, nextBoard + 1;
    }

    method CreateCard(board: nat) returns (id: nat)
      modifies `cards, `nextId
      ensures id == old(nextId) && nextId == id + 1
      ensures cards == old(cards)[id := Card(board, Backlog, false, false, "")]
    {
      id, nextId := nextId, nextId + 1;
      cards := cards[id := Card(board, Backlog, false, false, "")];
    }

    method MoveCard(id: nat, to: Target) returns (ok: bool)
      modifies `cards
      ensures ok <==> MayMove(old(cards), id, to)
      ensures cards == if ok then old(cards)[id := old(cards)[id].(column := to.column)] else old(cards)
    {
      if to.Unknown? {
        return false;
      }
      if id !in cards {
        return false;
      }
      var current := cards[id].column;
      if to.column == current {
        assert cards[id := cards[id].(column := current)] == cards;
        return true;
      }
      if to.column == Done && !cards[id].gate {
        return false;
      }
      if Index(to.column) > Index(current) + 1 {
        return false;
      }
      cards := cards[id := cards[id].(column := to.column)];
      ok := true;
    }

    method PassTddGate(id: nat)
      modifies `cards
      ensures cards == if id in old(cards) then old(cards)[id := old(cards)[id].(gate := true)] else old(cards)
    {
      if id in cards {
        cards := cards[id := cards[id].(gate := true)];
      }
    }

    method SetBlocked(id: nat, reason: string)
      modifies `cards
      ensures cards == if id in old(cards) then old(cards)[id := old(cards)[id].(blocked := true, reason := reason)]
                       else old(cards)
    {
      if id in cards {
        cards := cards[id := cards[id].(blocked := true, reason := reason)];
      }
    }
  }

  class KanbanEngine {
    const store: KanbanStore
    var events: seq<Event>

    function State(): Board
      reads this, store
    {
      Board(store.cards, store.nextId, store.nextBoard, events)
    }

    constructor (store: KanbanStore)
      ensures this.store == store && events == []
    {
      this.store := store;
      events := [];
    }

    method NewBoard() returns (id: nat)
      modifies store
      ensures id == old(store.nextBoard) && State() == old(State()).(nextBoard := id + 1)
    {
      id := store.CreateBoard();
    }

    method NewCard(board: nat) returns (id: nat)
      modifies store
      ensures id == old(store.nextId) && State() == CreateCard(old(State()), board)
    {
      id := store.CreateCard(board);
    }

    method MoveCard(id: nat, to: Target) returns (ok: bool)
      modifies this, store
      ensures ok <==> MayMove(old(store.cards), id, to)
      ensures State() == MoveTo(old(State()), id, to)
    {
      var before := if id in store.cards then Known(store.cards[id].column) else Unknown;
      ok := store.MoveCard(id, to);
      if !ok {
        if to == Known(Done) && id in store.cards {
          events := events + [Blocked(id, store.cards[id].column, GATE_REASON)];
        }
        return;
      }
      if before != Known(store.cards[id].column) {
        events := events + [Moved(id, before.column, store.cards[id].column)];
      }
    }

    /** The event is published from the row read back after the update; for a card that does not exist there is none,
        nothing changes, and with an event bus an error is raised. */
    method BlockCard(id: nat, reason: string) returns (found: bool)
      modifies this, store
      ensures State() == Block(old(State()), id, reason)
      ensures found <==> id in old(store.cards)
      ensures found ==> store.cards == old(store.cards)[id := old(store.cards)[id].(blocked := true, reason := reason)]
    {
      store.SetBlocked(id, reason);
      found := id in store.cards;
      if found {
        events := events + [Blocked(id, store.cards[id].column, reason)];
      }
    }

    method BeginWork(id: nat) returns (ok: bool)
      modifies this, store
      ensures (State(), ok) == AfterBegin(old(State()), id)
      ensures ok <==> id in old(store.cards)
      ensures ok ==> store.cards == old(store.cards)[id := old(store.cards)[id].(column := InProgress)]
    {
      BeginWorkSucceeds(State(), id);
      ok := MoveCard(id, Known(Todo));
      if !ok {
        return;
      }
      ok := MoveCard(id, Known(InProgress));
    }

    method CompleteWork(id: nat) returns (ok: bool)
      modifies this, store
      ensures (State(), ok) == AfterComplete(old(State()), id)
      ensures ok <==> id in old(store.cards) && old(store.cards)[id].column in {InProgress, Review, Done}
      ensures ok ==> store.cards == old(store.cards)[id := old(store.cards)[id].(column := Done, gate := true)]
    {
      CompleteWorkSucceeds(State(), id);
      ok := MoveCard(id, Known(Review));
      if !ok {
        return;
      }
      store.PassTddGate(id);
      ok := MoveCard(id, Known(Done));
    }
  }

  // ---------------------------------------------------------------------------------------------
  // Single operations
  // ---------------------------------------------------------------------------------------------

  /** `begin_work` succeeds for every existing card, from any column, and changes nothing but its column. */
  lemma BeginWorkSucceeds(b: Board, id: nat)
    ensures var (b', ok) := AfterBegin(b, id);
      && (ok <==> id in b.cards)
      && (ok ==> b'.cards == b.cards[id := b.cards[id].(column := InProgress)])
      && (!ok ==> b' == b)
  {
  }

  /** `complete_work` succeeds exactly from InProgress, Review and Done; then the card is in Done with its gate
      passed, and otherwise nothing at all has changed. */
  lemma CompleteWorkSucceeds(b: Board, id: nat)
    ensures var (b', ok) := AfterComplete(b, id);
      && (ok <==> id in b.cards && b.cards[id].column in {InProgress, Review, Done})
      && (ok ==> b'.cards == b.cards[id := b.cards[id].(column := Done, gate := true)])
      && (!ok ==> b' == b)
  {
  }

  /** A move into Done is refused from anywhere but Review without a gate, and from before Review in any case.
      Every refusal is announced with the reason that the gate is missing, which is untrue exactly for a gated
      card that would skip a column. */
  lemma RefusedDoneBlamesTheGate(b: Board, id: nat)
    requires id in b.cards
    ensures var card := b.cards[id]; var refused := !MayMove(b.cards, id, Known(Done));
      && (refused <==> card.column != Done && (!card.gate || Index(card.column) < Index(Review)))
      && (refused ==> MoveTo(b, id, Known(Done)).events == b.events + [Blocked(id, card.column, GATE_REASON)])
      && (refused && card.gate <==> card.gate && Index(card.column) < Index(Review))
  {
  }

  // ---------------------------------------------------------------------------------------------
  // Runs
  // ---------------------------------------------------------------------------------------------

  datatype Op =
    | OpCreate(board: nat)
    | OpMove(id: nat, to: Target)
    | OpPassGate(id: nat)
    | OpBlock(id: nat, reason: string)
    | OpBegin(id: nat)
    | OpComplete(id: nat)

  function Apply(b: Board, op: Op): Board {
    match op
    case OpCreate(board) => CreateCard(b, board)
    case OpMove(id, to) => MoveTo(b, id, to)
    case OpPassGate(id) => PassGate(b, id)
    case OpBlock(id, reason) => Block(b, id, reason)
    case OpBegin(id) => AfterBegin(b, id).0
    case OpComplete(id) => AfterComplete(b, id).0
  }

  function Run(ops: seq<Op>): Board {
    if ops == [] then Board(map[], 1, 1, []) else Apply(Run(ops[..|ops| - 1]), ops[|ops| - 1])
  }

  /** A forward move counts one, a backward move its distance, negatively. */
  function Progress(e: Event, id: nat): int {
    if !e.Moved? || e.card != id then 0
    else if Index(e.to) > Index(e.from) then 1
    else -(Index(e.from) - Index(e.to))
  }

  /** Forward moves of a card minus the total distance of its backward moves. */
  function NetProgress(events: seq<Event>, id: nat): int {
    if events == [] then 0
    else NetProgress(events[..|events| - 1], id) + Progress(events[|events| - 1], id)
  }

  /** The card has been moved into this column, or started there. */
  predicate Visited(events: seq<Event>, id: nat, c: Column) {
    c == Backlog || exists e :: e in events && e.Moved? && e.card == id && e.to == c
  }

  ghost predicate CardOk(events: seq<Event>, id: nat, card: Card) {
    && (card.column == Done ==> card.gate)
    && NetProgress(events, id) == Index(card.column)
    && (forall c :: Index(c) <= Index(card.column) ==> Visited(events, id, c))
  }

  ghost predicate Consistent(b: Board) {
    && (forall id :: id in b.cards ==> id < b.nextId && CardOk(b.events, id, b.cards[id]))
    && (forall e :: e in b.events && e.Moved? ==> e.card < b.nextId)
  }

  lemma EventSnoc(events: seq<Event>, e: Event)
    ensures forall id :: NetProgress(events + [e], id) == NetProgress(events, id) + Progress(e, id)
    ensures forall id, c :: Visited(events, id, c) ==> Visited(events + [e], id, c)
    ensures e.Moved? ==> Visited(events + [e], e.card, e.to)
  {
    assert (events + [e])[..|events|] == events;
    assert forall x :: x in events ==> x in events + [e];
    assert e in events + [e];
  }

  lemma {:induction false} FreshCardsHaveNoEvents(events: seq<Event>, id: nat)
    requires forall e :: e in events && e.Moved? ==> e.card < id
    ensures NetProgress(events, id) == 0
  {
    if events != [] {
      assert events[|events| - 1] in events;
      FreshCardsHaveNoEvents(events[..|events| - 1], id);
    }
  }

  /** An event about no move of the card leaves what is known about the card as it was. */
  lemma OtherEventsKeepCard(events: seq<Event>, id: nat, card: Card, e: Event)
    requires CardOk(events, id, card) && (e.Moved? ==> e.card != id)
    ensures CardOk(events + [e], id, card)
  {
    EventSnoc(events, e);
  }

  lemma MoveKeepsCard(events: seq<Event>, id: nat, card: Card, to: Column)
    requires CardOk(events, id, card) && to != card.column
    requires Index(to) <= Index(card.column) + 1 && (to == Done ==> card.gate)
    ensures CardOk(events + [Moved(id, card.column, to)], id, card.(column := to))
  {
    EventSnoc(events, Moved(id, card.column, to));
  }

  lemma MoveKeepsConsistent(b: Board, id: nat, to: Target)
    requires Consistent(b)
    ensures Consistent(MoveTo(b, id, to))
  {
    hide CardOk;
    var b' := MoveTo(b, id, to);
    if b' != b {
      var e := b'.events[|b.events|];
      assert b'.events == b.events + [e];
      forall other | other in b'.cards ensures CardOk(b'.events, other, b'.cards[other]) {
        if e.Moved? && other == id {
          MoveKeepsCard(b.events, id, b.cards[id], to.column);
        } else {
          OtherEventsKeepCard(b.events, other, b.cards[other], e);
        }
      }
    }
  }

  lemma BlockKeepsConsistent(b: Board, id: nat, reason: string)
    requires Consistent(b)
    ensures Consistent(Block(b, id, reason))
  {
    var b' := Block(b, id, reason);
    if id in b.cards {
      forall other | other in b'.cards ensures CardOk(b'.events, other, b'.cards[other]) {
        OtherEventsKeepCard(b.events, other, b.cards[other], Blocked(id, b.cards[id].column, reason));
      }
    }
  }

  lemma CreateKeepsConsistent(b: Board, board: nat)
    requires Consistent(b)
    ensures Consistent(CreateCard(b, board))
  {
    FreshCardsHaveNoEvents(b.events, b.nextId);
    assert CardOk(b.events, b.nextId, Card(board, Backlog, false, false, ""));
  }

  lemma ApplyKeepsConsistent(b: Board, op: Op)
    requires Consistent(b)
    ensures Consistent(Apply(b, op))
  {
    hide Consistent, MoveTo;
    match op
    case OpCreate(board) => CreateKeepsConsistent(b, board);
    case OpMove(id, to) => MoveKeepsConsistent(b, id, to);
    case OpPassGate(id) => GateKeepsConsistent(b, id);
    case OpBlock(id, reason) => BlockKeepsConsistent(b, id, reason);
    case OpBegin(id) =>
      MoveKeepsConsistent(b, id, Known(Todo));
      MoveKeepsConsistent(MoveTo(b, id, Known(Todo)), id, Known(InProgress));
    case OpComplete(id) =>
      MoveKeepsConsistent(b, id, Known(Review));
      GateKeepsConsistent(MoveTo(b, id, Known(Review)), id);
      MoveKeepsConsistent(PassGate(MoveTo(b, id, Known(Review)), id), id, Known(Done));
  }

  lemma GateKeepsConsistent(b: Board, id: nat)
    requires Consistent(b)
    ensures Consistent(PassGate(b, id))
  {
  }

  /** After every run of board operations: a card in Done has its gate passed; a card's column index is the
      number of its forward moves minus the distance of its backward moves; and it has visited every column
      up to the one it is in. */
  lemma {:induction false} RunsAreConsistent(ops: seq<Op>)
    ensures Consistent(Run(ops))
  {
    if ops != [] {
      RunsAreConsistent(ops[..|ops| - 1]);
      ApplyKeepsConsistent(Run(ops[..|ops| - 1]), ops[|ops| - 1]);
    }
  }

  lemma ApplyKeepsFlags(b: Board, op: Op, id: nat)
    requires id in b.cards && id < b.nextId
    ensures var b' := Apply(b, op);
      && id in b'.cards
      && (b.cards[id].gate ==> b'.cards[id].gate)
      && (b.cards[id].blocked ==> b'.cards[id].blocked)
  {
  }

  /** No later operation removes a card, takes its gate back or unblocks it. */
  lemma {:induction false} GateAndBlockArePermanent(ops: seq<Op>, more: seq<Op>, id: nat)
    requires id in Run(ops).cards
    ensures id in Run(ops + more).cards
    ensures Run(ops).cards[id].gate ==> Run(ops + more).cards[id].gate
    ensures Run(ops).cards[id].blocked ==> Run(ops + more).cards[id].blocked
  {
    if more == [] {
      assert ops + more == ops;
    } else {
      var init := more[..|more| - 1];
      assert (ops + more)[..|ops + more| - 1] == ops + init;
      GateAndBlockArePermanent(ops, init, id);
      RunsAreConsistent(ops + init);
      ApplyKeepsFlags(Run(ops + init), more[|more| - 1], id);
    }
  }
}
