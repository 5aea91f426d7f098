/** What board operations do, column by column, and what flags and events tell about a run. */
module KanbanResults {
  import opened Kanban

  // ---------------------------------------------------------------------------------------------
  // Single operations
  // ---------------------------------------------------------------------------------------------

  /** Where a card may go from a column: back to any column before it, on to the next one, and to Done only from
      Review and with its gate passed. */
  function Reachable(from: Column, gate: bool): set<Column> {
    match from
    case Backlog => {Backlog, Todo}
    case Todo => {Backlog, Todo, InProgress}
    case InProgress => {Backlog, Todo, InProgress, Review}
    case Review => {Backlog, Todo, InProgress, Review} + if gate then {Done} else {}
    case Done => {Backlog, Todo, InProgress, Review, Done}
  }

  /** A move changes the column and is announced exactly if the card may go there and is not there already; a refused
      move into Done is announced as blocked, and nothing else has any effect. */
  lemma MovesIff(b: Board, id: nat, to: Target)
    ensures MayMove(b.cards, id, to)
      <==> id in b.cards && to.Known? && to.column in Reachable(b.cards[id].column, b.cards[id].gate)
    ensures MoveTo(b, id, to)
      == if id !in b.cards || to.Unknown? || to.column == b.cards[id].column then b
         else
           var card := b.cards[id];
           if to.column in Reachable(card.column, card.gate) then
             b.(cards := b.cards[id := card.(column := to.column)],
                events := b.events + [Moved(id, card.column, to.column)])
           else if to.column == Done then
             b.(events := b.events + [Blocked(id, card.column,
                                              "TDD gate not passed: cannot move to 'Done' without green tests")])
           else b
  {
  }

  /** Beginning work announces the way over Todo, from any column; completing it the way over Review. */
  lemma WorkAnnounces(b: Board, id: nat)
    requires id in b.cards
    ensures var c := b.cards[id].column;
      && AfterBegin(b, id).0.events
         == b.events + (if c == Todo then [] else [Moved(id, c, Todo)]) + [Moved(id, Todo, InProgress)]
      && AfterComplete(b, id).0.events
         == if c in {Backlog, Todo} then b.events
            else b.events + (if c == Review then [] else [Moved(id, c, Review)]) + [Moved(id, Review, Done)]
  {
  }

  // ---------------------------------------------------------------------------------------------
  // Flags
  // ---------------------------------------------------------------------------------------------

  function Creations(ops: seq<Op>): nat {
    if ops == [] then 0 else Creations(ops[..|ops| - 1]) + (if ops[|ops| - 1].OpCreate? then 1 else 0)
  }

  /** Cards are numbered from 1 in the order in which they are created, and none is ever lost. */
  lemma {:induction false} CardsAreNumbered(ops: seq<Op>)
    ensures Run(ops).nextId == Creations(ops) + 1
    ensures forall id: nat :: id in Run(ops).cards <==> 1 <= id <= Creations(ops)
  {
    if ops != [] {
      CardsAreNumbered(ops[..|ops| - 1]);
      ApplyNumbers(Run(ops[..|ops| - 1]), ops[|ops| - 1]);
      hide Apply;
    }
  }

  lemma ApplyNumbers(b: Board, op: Op)
    ensures Apply(b, op).cards.Keys == if op.OpCreate? then b.cards.Keys + {b.nextId} else b.cards.Keys
    ensures Apply(b, op).nextId == b.nextId + if op.OpCreate? then 1 else 0
  {
  }

  /** The operation passes the gate of the card: directly, or by completing work from a column where that succeeds. */
  predicate PassesGate(b: Board, op: Op, id: nat) {
    && id in b.cards
    && (op == OpPassGate(id) || (op == OpComplete(id) && b.cards[id].column in {InProgress, Review, Done}))
  }

  predicate Blocks(b: Board, op: Op, id: nat) { op.OpBlock? && op.id == id && id in b.cards }

  lemma ApplyFlags(b: Board, op: Op, id: nat)
    requires id in b.cards && id < b.nextId
    ensures var card, card' := b.cards[id], Apply(b, op).cards[id];
      && id in Apply(b, op).cards
      && card'.gate == (card.gate || PassesGate(b, op, id))
      && card'.blocked == (card.blocked || Blocks(b, op, id))
      && card'.reason == (if Blocks(b, op, id) then op.reason else card.reason)
      && card'.board == card.board
  {
    hide AfterBegin, AfterComplete;
    if op.OpBegin? {
      BeginWorkSucceeds(b, op.id);
    } else if op.OpComplete? {
      CompleteWorkSucceeds(b, op.id);
    }
  }

  lemma NewFlags(b: Board, op: Op, id: nat)
    requires id !in b.cards
    ensures id in Apply(b, op).cards ==>
      op.OpCreate? && Apply(b, op).cards[id] == Card(op.board, Backlog, false, false, "")
  {
  }

  ghost predicate EverPassed(ops: seq<Op>, id: nat) {
    exists k :: 0 <= k < |ops| && PassesGate(Run(ops[..k]), ops[k], id)
  }

  ghost predicate EverBlocked(ops: seq<Op>, id: nat) {
    exists k :: 0 <= k < |ops| && Blocks(Run(ops[..k]), ops[k], id)
  }

  lemma EverSnoc(ops: seq<Op>, id: nat)
    requires ops != []
    ensures var init, op := ops[..|ops| - 1], ops[|ops| - 1];
      && (EverPassed(ops, id) <==> EverPassed(init, id) || PassesGate(Run(init), op, id))
      && (EverBlocked(ops, id) <==> EverBlocked(init, id) || Blocks(Run(init), op, id))
  {
    hide PassesGate, Blocks, Run;
    var init, op := ops[..|ops| - 1], ops[|ops| - 1];
    forall k | 0 <= k < |init| ensures init[..k] == ops[..k] && init[k] == ops[k] {
    }
  }

  lemma NeverBeforeCreation(ops: seq<Op>, id: nat)
    requires id !in Run(ops).cards
    ensures !EverPassed(ops, id) && !EverBlocked(ops, id)
  {
    hide Run;
    forall k | 0 <= k < |ops| ensures id !in Run(ops[..k]).cards {
      CardsAreNumbered(ops);
      CardsAreNumbered(ops[..k]);
      CreationsGrow(ops, k);
    }
  }

  lemma {:induction false} CreationsGrow(ops: seq<Op>, k: nat)
    requires k <= |ops|
    ensures Creations(ops[..k]) <= Creations(ops)
  {
    if k < |ops| {
      var init := ops[..|ops| - 1];
      CreationsGrow(init, k);
      assert init[..k] == ops[..k];
    } else {
      assert ops[..k] == ops;
    }
  }

  /** After every run the gate of a card is passed exactly if some operation of the run passed it, and the card is
      blocked exactly if some operation blocked it. */
  lemma {:induction false} FlagsTellHistory(ops: seq<Op>, id: nat)
    requires id in Run(ops).cards
    ensures Run(ops).cards[id].gate <==> EverPassed(ops, id)
    ensures Run(ops).cards[id].blocked <==> EverBlocked(ops, id)
  {
    if ops != [] {
      hide Apply, EverPassed, EverBlocked, PassesGate, Blocks;
      var init, op := ops[..|ops| - 1], ops[|ops| - 1];
      EverSnoc(ops, id);
      if id in Run(init).cards {
        FlagsTellHistory(init, id);
        CardsAreNumbered(init);
        ApplyFlags(Run(init), op, id);
      } else {
        NeverBeforeCreation(init, id);
        NewFlags(Run(init), op, id);
        NoFlags(Run(init), op, id);
      }
    }
  }

  lemma NoFlags(b: Board, op: Op, id: nat)
    requires id !in b.cards
    ensures !PassesGate(b, op, id) && !Blocks(b, op, id)
  {
  }

  // ---------------------------------------------------------------------------------------------
  // Events
  // ---------------------------------------------------------------------------------------------

  /** The column in which the announced moves leave a card. */
  function Replayed(events: seq<Event>, id: nat): Column {
    if events == [] then Backlog
    else
      var e := events[|events| - 1];
      if e.Moved? && e.card == id then e.to else Replayed(events[..|events| - 1], id)
  }

  /** Every move starts where the moves before it left the card, and leads elsewhere. */
  predicate Chained(events: seq<Event>) {
    events == [] ||
    var init, e := events[..|events| - 1], events[|events| - 1];
    Chained(init) && (e.Moved? ==> e.from == Replayed(init, e.card) && e.to != e.from)
  }

  ghost predicate Tracked(b: Board) {
    && Chained(b.events)
    && (forall id: nat :: Replayed(b.events, id) == if id in b.cards then b.cards[id].column else Backlog)
    && forall id :: id in b.cards ==> id < b.nextId
  }

  lemma ReplayedSnoc(events: seq<Event>, e: Event)
    ensures forall id: nat ::
      Replayed(events + [e], id) == (if e.Moved? && e.card == id then e.to else Replayed(events, id))
    ensures Chained(events + [e])
      <==> Chained(events) && (e.Moved? ==> e.from == Replayed(events, e.card) && e.to != e.from)
  {
    assert (events + [e])[..|events|] == events;
  }

  lemma MoveTracks(b: Board, id: nat, to: Target)
    requires Tracked(b)
    ensures Tracked(MoveTo(b, id, to))
  {
    hide Replayed, Chained, Reachable;
    MovesIff(b, id, to);
    var b' := MoveTo(b, id, to);
    if b' != b {
      var e := b'.events[|b.events|];
      assert b'.events == b.events + [e];
      ReplayedSnoc(b.events, e);
    }
  }

  lemma BlockTracks(b: Board, id: nat, reason: string)
    requires Tracked(b)
    ensures Tracked(Block(b, id, reason))
  {
    hide Replayed, Chained;
    if id in b.cards {
      ReplayedSnoc(b.events, Blocked(id, b.cards[id].column, reason));
    }
  }

  lemma PassTracks(b: Board, id: nat)
    requires Tracked(b)
    ensures Tracked(PassGate(b, id))
  {
  }

  lemma CreateTracks(b: Board, board: nat)
    requires Tracked(b)
    ensures Tracked(CreateCard(b, board))
  {
  }

  lemma ApplyTracks(b: Board, op: Op)
    requires Tracked(b)
    ensures Tracked(Apply(b, op))
  {
    hide Tracked, MoveTo, Block, PassGate, CreateCard;
    match op
    case OpCreate(board) => CreateTracks(b, board);
    case OpMove(id, to) => MoveTracks(b, id, to);
    case OpPassGate(id) => PassTracks(b, id);
    case OpBlock(id, reason) => BlockTracks(b, id, reason);
    case OpBegin(id) =>
      MoveTracks(b, id, Known(Todo));
      MoveTracks(MoveTo(b, id, Known(Todo)), id, Known(InProgress));
    case OpComplete(id) =>
      MoveTracks(b, id, Known(Review));
      PassTracks(MoveTo(b, id, Known(Review)), id);
      MoveTracks(PassGate(MoveTo(b, id, Known(Review)), id), id, Known(Done));
  }

  /** After every run the announced moves of each card form a path from Backlog to the column it is in. */
  lemma {:induction false} EventsReplayTheBoard(ops: seq<Op>)
    ensures var b := Run(ops);
      Chained(b.events) && forall id :: id in b.cards ==> b.cards[id].column == Replayed(b.events, id)
  {
    RunTracks(ops);
    hide Run;
  }

  lemma {:induction false} RunTracks(ops: seq<Op>)
    ensures Tracked(Run(ops))
  {
    if ops != [] {
      RunTracks(ops[..|ops| - 1]);
      hide Tracked, Apply;
      ApplyTracks(Run(ops[..|ops| - 1]), ops[|ops| - 1]);
    }
  }
}
