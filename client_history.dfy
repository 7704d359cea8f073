/**
 * Properties of the client's history (src/lib/game/state.ts, `historyAtom`
 * and `currentPlayerAtom`): hidden entries are invisible to every derived
 * value, the write side attaches exactly the promotion event, and the turn
 * passes unless a capture can be continued.
 */
module ClientHistory {
  import opened Options
  import P = Position
  import opened ClientState

  /** Filtering a filtered history changes nothing. */
  lemma {:induction false} VisibleIdempotent(stored: seq<Move>)
    ensures Visible(Visible(stored)) == Visible(stored)
  {
    if stored != [] {
      VisibleIdempotent(stored[1..]);
      var head := if stored[0].hidden then [] else [stored[0]];
      VisibleConcat(head, Visible(stored[1..]));
      VisibleOfEntry(stored[0]);
      if !stored[0].hidden {
        VisibleOfEntry(stored[0]);
      } else {
        assert head + Visible(stored[1..]) == Visible(stored[1..]);
      }
    }
  }

  /**
   * A hidden entry anywhere in the stored history is ignored: the history
   * every atom reads, hence the board, the available moves and the current
   * player, is the same as without it.
   */
  lemma HiddenEntryIgnored(before: seq<Move>, m: Move, after: seq<Move>)
    requires m.hidden
    ensures Visible(before + [m] + after) == Visible(before + after)
    ensures BoardOf(Visible(before + [m] + after)) == BoardOf(Visible(before + after))
    ensures CurrentPlayer(Visible(before + [m] + after)) == CurrentPlayer(Visible(before + after))
  {
    VisibleConcat(before + [m], after);
    VisibleConcat(before, [m]);
    VisibleConcat(before, after);
    VisibleOfEntry(m);
    assert Visible(before) + [] == Visible(before);
  }

  /** The entry the write side stores differs from the value only in its event. */
  lemma TaggedOnlySetsEvent(value: Move)
    ensures Tagged(value).(event := value.event) == value
    ensures Tagged(value).hidden == value.hidden && Tagged(value).mtype == value.mtype
  {}

  /**
   * The write side attaches `promote` to `dame` exactly when a peon lands on
   * its player's promotion column (`h` for red, `a` for black); otherwise the
   * value's own event is kept.
   */
  lemma TaggedPromotes(value: Move)
    ensures var promotes := value.piece == Peon && |value.to| >= 1 && value.to[..1] == PromotionColumn(value.player);
      Tagged(value).event == if promotes then Some(Promote(Dame)) else value.event
  {}

  /** A dame is never promoted by the write side. */
  lemma DameNotPromoted(value: Move)
    requires value.piece == Dame
    ensures Tagged(value) == value
  {}

  /** Writing a hidden value leaves what every reader sees unchanged. */
  lemma WriteHiddenInvisible(stored: seq<Move>, value: Move)
    requires value.hidden
    ensures Visible(stored + [Tagged(value)]) == Visible(stored)
  {
    HiddenEntryIgnored(stored, Tagged(value), []);
    assert stored + [Tagged(value)] + [] == stored + [Tagged(value)];
    assert stored + [] == stored;
  }

  /** Writing a visible value appends exactly its tagged entry to what readers see. */
  lemma WriteVisibleAppends(stored: seq<Move>, value: Move)
    requires !value.hidden
    ensures Visible(stored + [Tagged(value)]) == Visible(stored) + [Tagged(value)]
  {
    VisibleConcat(stored, [Tagged(value)]);
    VisibleOfEntry(Tagged(value));
  }

  // ---------------------------------------------------------------------------
  // currentPlayerAtom
  // ---------------------------------------------------------------------------

  /** Red opens the game. */
  lemma FirstPlayerIsRed()
    ensures CurrentPlayer([]) == Red
  {}

  /**
   * The last mover keeps the turn exactly when the last entry is a capture and
   * the piece that landed has a capture on offer; in every other case the turn
   * passes to the other player.
   */
  lemma TurnRule(history: seq<Move>)
    requires history != []
    ensures var last := history[|history| - 1];
      var moves := AvailableMoves(BoardOf(history));
      var keeps := last.mtype == Capture && last.to in moves
        && exists m :: m in moves[last.to] && m.mtype == Capture;
      && (keeps ==> CurrentPlayer(history) == last.player)
      && (!keeps ==> CurrentPlayer(history) == Other(last.player))
  {}

  /** A step always passes the turn. */
  lemma StepPassesTurn(history: seq<Move>)
    requires history != [] && history[|history| - 1].mtype == Step
    ensures CurrentPlayer(history) == Other(history[|history| - 1].player)
  {}

  /** After a visible step is written, the turn belongs to the other player. */
  lemma WriteStepPassesTurn(stored: seq<Move>, value: Move)
    requires !value.hidden && value.mtype == Step
    ensures CurrentPlayer(Visible(stored + [Tagged(value)])) == Other(value.player)
  {
    WriteVisibleAppends(stored, value);
    var h := Visible(stored) + [Tagged(value)];
    assert h[|h| - 1] == Tagged(value);
  }
}
