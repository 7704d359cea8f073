# Checkers rules engine, modelled in Dafny

The repository holds a checkers rules engine, written twice. Each version has its own board coordinates. Both are modelled as written.

- **Client** (`src/lib/game/position.ts`, `src/lib/game/state.ts`). The game is an append-only history of moves kept in a jotai atom. Every other value is derived from it:
  - the board, a fold of the visible entries over a fixed 16-piece layout, skipping malformed entries;
  - the available moves, computed per piece with a mandatory-capture pass;
  - the current player, which stays with the mover while a capture chain can continue.

  Writing an entry attaches a promotion event when a peon reaches its promotion column.
- **Server** (`src/lib/game/common.ts`, `src/lib/game/actions.ts`). A game is a log of `init`, `move` and `capture` entries, each carrying an `active` flag.
  - `queryGameData` replays the active entries into a board, the scores and the current player.
  - `getAvailableMoves` offers moves per piece, with no mandatory capture.
  - `movePiece` validates a move and appends one entry.
  - `undoMove` deactivates the latest active entry that is not `init`.
  - The server's `toPosition` does no range check, so labels off the board exist in the model too.

Files:
- `options.dfy`: `Option` and `Result`.
- `seqs.dfy`: `toReversed`, `indexOf` and a prefix fact.
- `position.dfy` (module `Position`) and `common.dfy` (module `Common`): the two coordinate systems.
- `state.dfy` (module `ClientState`): the client's atoms, as functions and as the imperative loops of the source.
  - `client_history.dfy`, `client_board.dfy` and `client_moves.dfy` hold its properties.
- `actions.dfy` (module `Actions`): the server actions over an in-memory store (class `GameStore`: a set of game ids and the log in creation order).
  - `server_rules.dfy` (module `ServerRules`) holds its properties.

The imperative parts keep the source's form:
- `boardAtom` and the two loops of `availableMovesAtom` are methods with loops that update maps.
- The `forEach` callbacks of `queryGameData` and `getAvailableMoves` are methods.
- Each is proved equal to a specification function, and the properties are proved as lemmas about those functions.

Some behaviours of the code are worth stating outright, and the model keeps them as written:
- The server checks neither the turn nor the player. `movePiece` only requires the player id to be non-empty (src/lib/game/actions.ts:213-242; `TurnNotEnforced`, `PlayerNotChecked`).
- The client's board fold silently skips an entry whose squares do not fit the board (src/lib/game/state.ts:92-109; `ClientBoard.SkippedUnchanged`).
- A move from an empty square fails with "No piece found at position" (src/lib/game/actions.ts:172-173, reached through the `getAvailableMoves` call at src/lib/game/actions.ts:227). This happens before the "Invalid move" check at src/lib/game/actions.ts:229.
- The server's `toPosition` has no range check, so moves and capture landings off the board are offered and replayed (`EdgeMoveLeavesBoard`, `EdgeCaptureOffered`, `EdgeCaptureLandsOffBoard`).

## Model

| member | source | states |
|---|---|---|
| Position.RowsReversed | src/lib/game/position.ts:8-27 | rows are the numerals reversed: row index i is numeral 8-i, so index 0 is `8` and index 7 is `1` |
| Position.ColsLayout | src/lib/game/position.ts:22-24 | the eight columns are the letters, distinct, one character each |
| Position.RowsDistinct | src/lib/game/position.ts:22-27 | the eight rows are distinct and one character each |
| Position.LabelIsPosition | src/lib/game/position.ts:36-36 | a column label followed by a row label is a position and splits back into the two |
| Position.CharsArePosition | src/lib/game/position.ts:36-36 | any letter a..h followed by any digit 1..8 is a position |
| Position.ToPositionIsPosition | src/lib/game/position.ts:63-74 | whatever `toPosition` returns, in any call form, is one of the square labels |
| Position.ToPositionIndices | src/lib/game/position.ts:49-54 | numeric `toPosition(c, r)` is defined exactly when 0 <= c < 8 and 0 <= r < 8, and is then `cols[c] + rows[r]` |
| Position.ToPositionLabels | src/lib/game/position.ts:57-73 | label `toPosition(col, row)` is defined exactly when col is a..h and row is 1..8, and is then their concatenation |
| Position.ToPositionMixed | src/lib/game/position.ts:68-73 | a number paired with a label, or a missing argument, gives `undefined` |
| Position.ToPositionObject | src/lib/game/position.ts:66-67 | the object form `{col, row}` gives the same result as the two-argument form |
| Position.IndexRoundTrip | src/lib/game/position.ts:69-83 | for in-range c, r: `fromPosition(toPosition(c, r)).toIndex()` is (c, r) |
| Position.ToIndexInRange | src/lib/game/position.ts:77-83 | the indices of any position are on the board and select its two characters |
| Position.PositionRoundTrip | src/lib/game/position.ts:70-78 | the two characters `fromPosition` splits off a position rebuild it through `toPosition` |
| Position.PositionIndexRoundTrip | src/lib/game/position.ts:68-81 | `toPosition` of the indices of a position is that position |
| Position.PositionsOfRowsAt | src/lib/game/position.ts:39-39 | the flattened row list has 8 entries per row, entry k being column k%8 of row k/8 |
| Position.PositionsOfRowsLength | src/lib/game/position.ts:39-39 | the flattened row list has 8 entries per row |
| Position.PositionsLayout | src/lib/game/position.ts:39-39 | `positions` has 64 entries, row-major from row `8`; entry k has indices (k%8, k/8) |
| Position.PositionsDistinct | src/lib/game/position.ts:39-39 | `positions` lists no square twice |
| Position.PositionIsSquare | src/lib/game/position.ts:39-39 | every entry of `positions` is a square label |
| Position.SquareIsListed | src/lib/game/position.ts:39-39 | every square label is in `positions`, at index 8*row+col |
| Position.PositionsExactlyTheSquares | src/lib/game/position.ts:39-39 | a string is in `positions` if and only if it is a square label (the meaning of `isValidPosition`) |
| ClientState.Visible | src/lib/game/state.ts:26-26 | the read side of the history: an entry is read if and only if it is stored and not hidden |
| ClientState.VisibleConcat | src/lib/game/state.ts:26-26 | filtering a concatenation is the concatenation of the filtered parts |
| ClientState.VisibleOfEntry | src/lib/game/state.ts:26-26 | a single entry is read exactly when it is not hidden |
| ClientState.HistoryStore.constructor | src/lib/game/state.ts:24-24 | the stored history starts empty |
| ClientState.HistoryStore.Write | src/lib/game/state.ts:27-37 | the write appends exactly the tagged entry to the stored history; unless it is hidden, readers see it appended, the board is the old board with the entry applied, and after a step the turn belongs to the other player |
| ClientState.BoardSnoc | src/lib/game/state.ts:90-130 | the board after one more entry is that entry applied to the board before it |
| ClientState.StepSnoc | src/lib/game/state.ts:46-57 | a step at the end of the history passes the turn to the other player |
| ClientState.ComputeBoard | src/lib/game/state.ts:71-132 | the imperative fold over the history yields `BoardOf(history)`, whose per-entry effect `ClientBoard.ApplyEntryEffect` states |
| ClientState.FilterDirection | src/lib/game/state.ts:171-173 | an offset is kept if and only if its direction is `All` or the player's direction |
| ClientState.HasCaptureSnoc | src/lib/game/state.ts:195-195 | a list with one more move has a capture exactly when the old list had one or the new move is one |
| ClientState.CaptureFlagStep | src/lib/game/state.ts:179-185 | after each offset, the player's `canCapture` flag is set exactly when the piece's collected moves hold a capture |
| ClientState.OnlyCaptures | src/lib/game/state.ts:198-198 | the filtered list holds exactly the capture moves of the list |
| ClientState.CanCaptureStep | src/lib/game/state.ts:168-191 | after each piece, `canCapture` flags exactly the players with a capture among the pieces seen so far |
| ClientState.OffsetCandidate | src/lib/game/state.ts:174-188 | the imperative body for one offset yields the candidate whose cases are stated in `ClientMoves.CandidateCases` |
| ClientState.CollectPieceMoves | src/lib/game/state.ts:169-190 | the inner loop collects the piece's candidates over its usable offsets and flags its player when one is a capture |
| ClientState.CollectAllMoves | src/lib/game/state.ts:168-191 | the first loop records the candidates of every occupied square, and `canCapture` flags exactly the players with a capture |
| ClientState.EnforceMandatoryCapture | src/lib/game/state.ts:192-201 | the second loop reduces each piece of a player who can capture to its captures and leaves the others unchanged |
| ClientState.ComputeAvailableMoves | src/lib/game/state.ts:164-203 | the two loops together yield `AvailableMoves(board)`, characterised in `ClientMoves.MandatoryRule` |
| ClientHistory.VisibleIdempotent | src/lib/game/state.ts:26-26 | filtering the read history again changes nothing |
| ClientHistory.HiddenEntryIgnored | src/lib/game/state.ts:26-26 | a hidden entry anywhere in storage changes neither the read history, the board nor the current player |
| ClientHistory.TaggedOnlySetsEvent | src/lib/game/state.ts:31-35 | the stored entry differs from the written value only in its event |
| ClientHistory.TaggedPromotes | src/lib/game/state.ts:29-34 | `promote -> dame` is attached exactly when a peon's destination column is its player's promotion column (`h` red, `a` black); otherwise the event is unchanged |
| ClientHistory.DameNotPromoted | src/lib/game/state.ts:142-150 | a dame, whose promotion is null, is stored as written |
| ClientHistory.WriteHiddenInvisible | src/lib/game/state.ts:26-35 | writing a hidden value leaves the read history unchanged |
| ClientHistory.WriteVisibleAppends | src/lib/game/state.ts:26-35 | writing a visible value appends exactly its tagged entry to the read history |
| ClientHistory.FirstPlayerIsRed | src/lib/game/state.ts:59-59 | with an empty history red moves |
| ClientHistory.TurnRule | src/lib/game/state.ts:46-60 | the last mover keeps the turn if and only if the last entry is a capture whose destination is offered a capture; otherwise the other player moves |
| ClientHistory.StepPassesTurn | src/lib/game/state.ts:50-57 | after a step the turn always passes |
| ClientHistory.WriteStepPassesTurn | src/lib/game/state.ts:27-57 | after writing a visible step, the other player has the turn |
| ClientBoard.SkippedUnchanged | src/lib/game/state.ts:92-109 | an entry with an empty or invalid origin, an occupied or invalid destination, or an invalid capture target leaves the board unchanged |
| ClientBoard.ApplyEntryEffect | src/lib/game/state.ts:100-129 | an applied entry empties its origin, puts the piece (promoted if the entry has an event) on its destination, deletes the capture target, and leaves every other square unchanged |
| ClientBoard.ApplyEntrySize | src/lib/game/state.ts:111-125 | an entry never adds a piece; a non-capture keeps the count |
| ClientBoard.ApplyEntryKeysValid | src/lib/game/state.ts:93-98 | a board on the 64 squares stays on them after any entry |
| ClientBoard.InitialBoardKeysValid | src/lib/game/state.ts:72-89 | the 16 starting squares are valid positions |
| ClientBoard.FoldInvariant | src/lib/game/state.ts:71-132 | every reachable board lies on the 64 squares and holds at most 16 pieces |
| ClientBoard.FoldConcat | src/lib/game/state.ts:91-130 | folding a concatenation folds the second part into the board of the first |
| ClientBoard.StepsKeepPieces | src/lib/game/state.ts:115-125 | a history without captures keeps all 16 pieces |
| ClientMoves.SquareIndices | src/lib/game/state.ts:175-177 | the square k steps along an offset exists exactly when the shifted indices are on the board, and is their label |
| ClientMoves.SquareIndex | src/lib/game/state.ts:175-176 | the indices of that square are the shifted indices |
| ClientMoves.CandidateCases | src/lib/game/state.ts:174-188 | one offset offers a step onto an empty neighbour, or a hop over an opposing neighbour onto an empty landing square; it offers nothing off the board, or next to a friendly piece, or when the landing is blocked |
| ClientMoves.CandidateSound | src/lib/game/state.ts:176-187 | every candidate belongs to the piece, lands on an empty valid square, and its target is the opposing neighbour |
| ClientMoves.CandidatesMembers | src/lib/game/state.ts:170-189 | a move is collected for a piece if and only if one of the offsets offers it |
| ClientMoves.CandidatesLength | src/lib/game/state.ts:171-189 | a piece has no more candidates than offsets |
| ClientMoves.DameOffsets | src/lib/game/state.ts:141-173 | a dame uses all four diagonals, whatever its player |
| ClientMoves.RedPeonOffsets | src/lib/game/state.ts:141-173 | a red peon uses only the two +1-column offsets |
| ClientMoves.BlackPeonOffsets | src/lib/game/state.ts:141-173 | a black peon uses only the two -1-column offsets |
| ClientMoves.AllowedOffsetsDiagonal | src/lib/game/state.ts:141-173 | every usable offset is one diagonal step, and a peon's column step is its player's (+1 red, -1 black) |
| ClientMoves.RawMoveFromOffset | src/lib/game/state.ts:168-190 | every move recorded for a piece is offered by one of its usable offsets |
| ClientMoves.AvailableMovesKeys | src/lib/game/state.ts:168-201 | every occupied square, and no other, gets an entry |
| ClientMoves.MandatoryRule | src/lib/game/state.ts:192-201 | a piece is offered only its captures if its player can capture anywhere, and all its candidates otherwise |
| ClientMoves.CaptureIsMandatory | src/lib/game/state.ts:192-201 | when a player can capture, every move offered to any of its pieces is a capture |
| ClientMoves.CapturesKept | src/lib/game/state.ts:195-199 | a capture candidate is always offered |
| ClientMoves.OfferedAreCandidates | src/lib/game/state.ts:192-201 | the second pass only removes moves |
| ClientMoves.NoCaptureKeepsAll | src/lib/game/state.ts:192-201 | a player with no capture anywhere keeps every candidate |
| ClientMoves.CanCaptureOffered | src/lib/game/state.ts:179-201 | a player can capture if and only if some piece of theirs is offered a capture |
| ClientMoves.CandidateGeometry | src/lib/game/state.ts:174-187 | a step moves once along its offset; a hop moves twice, its target once |
| ClientMoves.OfferedGeometry | src/lib/game/state.ts:141-201 | every offered move is diagonal (one square for a step, two for a capture, with the target midway), and a peon always goes toward its player's side |
| Common.RowsReversed | src/lib/game/common.ts:4-9 | the server's rows are the numerals reversed, so index 0 is `8` |
| Common.ColsRowsDistinct | src/lib/game/common.ts:4-9 | the eight columns and eight rows are distinct single characters |
| Common.ToPositionInRange | src/lib/game/common.ts:14-15 | numeric `toPosition(c, r)` on the board is `cols[c] + rows[r]`, a square label |
| Common.ToPositionLabels | src/lib/game/common.ts:15-15 | the label form is plain concatenation, a square label when both parts are valid |
| Common.ToPositionOffBoard | src/lib/game/common.ts:14-15 | an index off the board still gives a string, longer than a label and none of the 64 squares |
| Common.ToPositionTruthy | src/lib/game/common.ts:14-15 | a numeric label is never empty |
| Common.SplitOfLabel | src/lib/game/common.ts:17-20 | `splitFromPosition` gives the first and second characters |
| Common.IndexRoundTrip | src/lib/game/common.ts:14-25 | for 0 <= c, r < 8, `indexFromPosition(toPosition(c, r))` is (c, r) |
| Common.IndexOfPosition | src/lib/game/common.ts:22-25 | the indices of a square label are on the board and rebuild it |
| Common.IndexAtLeastMinusOne | src/lib/game/common.ts:22-25 | any string's indices lie in [-1, 8) |
| Common.AgreesWithClient | src/lib/game/common.ts:4-15 | on the board, the server's labels are the client's |
| Common.IndicesLabel | src/lib/game/common.ts:14-25 | a numeric label is a square if and only if both indices are on the board, and its indices are then the inputs |
| Actions.ActiveHistory | src/lib/game/actions.ts:107-111 | an entry is in a game's history if and only if it is in the log, active and of that game |
| Actions.Moves | src/lib/game/actions.ts:123-125 | the replayed entries are exactly the non-`init` ones |
| Actions.LastUndoable | src/lib/game/actions.ts:155-162 | the selected entry is active, not `init`, of the game, and no later entry is; no selection means there is no such entry |
| Actions.ReplayMove | src/lib/game/actions.ts:126-144 | the `forEach` callback performs one replay step, whose effect `ServerRules.MoveEntryEffect` and `ServerRules.CaptureEntryEffect` state |
| Actions.OfferMove | src/lib/game/actions.ts:195-209 | the `forEach` callback performs one offer step, whose effect `ServerRules.OfferAtEffect` states |
| Actions.GameStore.QueryGameData | src/lib/game/actions.ts:100-147 | null for an unknown game, else the replay of its active entries, with the scores and turn of `ServerRules.GameScores` and `ServerRules.TurnParity` |
| Actions.GameStore.GetAvailableMoves | src/lib/game/actions.ts:169-211 | "Game not found", "No piece found at position", or the offers characterised in `ServerRules.AvailableMovesRule` |
| Actions.GameStore.MovePiece | src/lib/game/actions.ts:213-242 | on success the store gains exactly the validated entry; on every error the store is unchanged |
| Actions.GameStore.UndoMove | src/lib/game/actions.ts:151-167 | the log becomes the undo of the old log, which `ServerRules.UndoChangesOne` characterises; a deactivation is reported exactly when there was a game id and an undoable entry |
| ServerRules.ActiveHistorySnoc | src/lib/game/actions.ts:107-111 | an appended entry joins a game's history exactly when it is active and of that game |
| ServerRules.IgnoredEntry | src/lib/game/actions.ts:105-114 | an inactive entry, or one of another game, changes nothing that `queryGameData` returns |
| ServerRules.ActiveHistoryUpdate | src/lib/game/actions.ts:107-111 | replacing an entry by another that is also invisible to a game leaves that game's history unchanged |
| ServerRules.InitBoardKeys | src/lib/game/actions.ts:120-121 | a square starts occupied if and only if some `init` entry names it |
| ServerRules.InitBoardLastWins | src/lib/game/actions.ts:121-121 | a seeded square holds the piece of the last `init` entry naming it |
| ServerRules.LandingTruthy | src/lib/game/actions.ts:131-137 | the landing label is never empty, so the `if (finalPosition)` guard always holds |
| ServerRules.RelocateEffect | src/lib/game/actions.ts:128-129 | `from` is emptied, `to` holds what `from` held, and every other square is unchanged |
| ServerRules.MoveEntryEffect | src/lib/game/actions.ts:127-129 | a `move` entry puts the piece of `from` on `to`, empties `from`, and changes no score and no other square |
| ServerRules.CaptureEntryEffect | src/lib/game/actions.ts:130-142 | a `capture` lands at `to + (to - from)`, empties `from` and the jumped `to`, adds one to the capturer's score, and changes nothing else |
| ServerRules.ScoresCount | src/lib/game/actions.ts:126-144 | after a replay, each player's score has grown by the number of captures they made |
| ServerRules.EntryScore | src/lib/game/actions.ts:141-141 | one replayed entry adds 1 to a player's score if and only if it is that player's capture |
| ServerRules.HistorySnoc | src/lib/game/actions.ts:120-125 | a non-`init` entry leaves the initial board alone and is replayed last |
| ServerRules.MovesKeepCaptures | src/lib/game/actions.ts:123-125 | filtering out `init` keeps every player's captures |
| ServerRules.MovesKeepCount | src/lib/game/actions.ts:123-125 | filtering out `init` keeps the count of every other entry type |
| ServerRules.GameScores | src/lib/game/actions.ts:100-146 | scores exist for both players, each equals that player's number of active captures, and the two add up to the number of active captures |
| ServerRules.TurnParity | src/lib/game/actions.ts:145-145 | a `move` entry passes the turn; `capture` and `init` entries keep it |
| ServerRules.RedOpens | src/lib/game/actions.ts:145-145 | with no `move` entries red has the turn |
| ServerRules.PieceOffsetsTable | src/lib/game/actions.ts:176-181 | kings look along all four diagonals, red pawns along +1 columns, black pawns along -1 |
| ServerRules.TestPositionsAll | src/lib/game/actions.ts:182-193 | no test position is filtered out, in offset order, because `toPosition` is always truthy |
| ServerRules.OffersContents | src/lib/game/actions.ts:195-209 | a test position is offered if and only if it is empty, or holds an opponent with an empty ending square; its value is `capture` exactly when it is occupied |
| ServerRules.OfferAtEffect | src/lib/game/actions.ts:196-208 | one callback adds its test position when offered, with its kind, and changes nothing else |
| ServerRules.AvailableMovesRule | src/lib/game/actions.ts:175-209 | a square is offered if and only if it is a neighbour along one of the piece's offsets that is empty, or holds an opponent with the square two steps along empty |
| ServerRules.OffersAlong | src/lib/game/actions.ts:182-209 | the same rule for any list of offsets |
| ServerRules.AvailableMovesKind | src/lib/game/actions.ts:195-209 | an offered square is a `capture` exactly when it is occupied (keyed by the jumped square); a friendly square is never offered |
| ServerRules.NeighbourIndices | src/lib/game/actions.ts:184-184 | a test position is a square if and only if its indices are on the board, and it has those indices |
| ServerRules.CaptureLandsBeyond | src/lib/game/actions.ts:131-136 | a capture offered over an on-board neighbour lands, when replayed, on the ending square that `getAvailableMoves` checked |
| ServerRules.OfferedGeometry | src/lib/game/actions.ts:175-209 | an offered on-board square is a diagonal neighbour, forward for a pawn; a `move` is to an empty square; a `capture` jumps an opponent and lands on an empty square |
| ServerRules.OffsetIsDiagonal | src/lib/game/actions.ts:176-181 | every offset is one diagonal step; a pawn's goes forward along the columns |
| ServerRules.EdgeMoveLeavesBoard | src/lib/game/actions.ts:184-207 | a red piece on column `h` is offered a `move` to a label off the board |
| ServerRules.EdgeCaptureOffered | src/lib/game/actions.ts:197-203 | a red piece on column `g` is offered a capture of a black piece on `h` whenever the label beyond is not on the board map |
| ServerRules.EdgeCaptureLandsOffBoard | src/lib/game/actions.ts:131-137 | that capture, replayed, lands on a label off the board |
| ServerRules.MoveResultRule | src/lib/game/actions.ts:213-240 | each form field is checked in turn, then the game, then the piece and the destination; on success the entry records the game, the offered kind, the piece, both squares, and is active |
| ServerRules.PlayerNotChecked | src/lib/game/actions.ts:220-221 | any two non-empty player ids give the same result |
| ServerRules.TurnNotEnforced | src/lib/game/actions.ts:223-240 | a piece of the player not on turn may move to any offered square |
| ServerRules.AppendReplays | src/lib/game/actions.ts:231-240 | after a successful move the game's history gains the entry, the board and scores are the old ones with it replayed, and the turn passes exactly for a `move` |
| ServerRules.MoveLeavesOtherGames | src/lib/game/actions.ts:231-240 | a move in one game changes nothing another game returns |
| ServerRules.UndoChangesOne | src/lib/game/actions.ts:151-164 | undo clears the `active` flag of exactly the latest undoable entry of the game, and of nothing else; without a game id or such an entry the log is unchanged |
| ServerRules.UndoLeavesOtherGames | src/lib/game/actions.ts:155-164 | undo in one game changes nothing another game returns |
| ServerRules.UndoAfterMove | src/lib/game/actions.ts:155-164 | undo right after a successful move deactivates that entry, and the game data is as before the move |

## Left out

- JavaScript values that are not integers (fractions, NaN, `null` passed as an object) are not modelled. The validators of `position.ts` see a value that is absent, an integer, a string, or a `{col, row}` object.
- Map insertion order is not modelled. Boards and move maps are Dafny maps and are compared by contents. `availableMovesAtom`'s result, and every property above, does not depend on iteration order.
- `board.set(to, undefined)` on the server, when a `move` comes from an empty square, is modelled as removing `to`. Every reader uses `get`, which cannot tell the two apart.
- The `createdAt` ordering is replaced by log order. Ties in `createdAt` are not modelled, and neither is the unordered order in which the relation query returns a game's history.
- The `historyAtom` write mutates the caller's `value.event` in place. The model stores a tagged copy, so the write's aliasing of the caller's object is not captured.
- jotai itself is not modelled:
  - `atomWithStorage` persistence to localStorage;
  - `selectedPositionAtom`, which the write resets;
  - the debug labels.
  Each derived atom is a function of the stored history.
- `capturesAtom` is not modelled. It is a constant that nothing updates.
- `src/lib/game/board.ts` and the React components are not part of this model: they hold a layout that nothing references, and rendering.
- Database plumbing in `actions.ts` is replaced by the in-memory `GameStore`. This covers the drizzle queries, `cache`, `refresh`/`revalidatePath`/`redirect`, and the `typeof` checks on `FormData` values. Form fields are strings, and the empty string stands for a missing one.
- The `newGame` and `getPlayers` seeding is not modelled. It is pure database insertion.
- The schema is not modelled (`src/database/*`, with its missing `active` column and `capture` type); an entry carries the fields that `actions.ts` reads.
- The joined piece is denormalised onto each `Entry`: its player and piece type. The nullable `from` of `init` entries is an unread string.
- `src/lib/crypto.ts` and `src/lib/utils.ts` are not part of this model. They are a foreign crypto library and configuration.
- New entries are taken to be active. The insert in `movePiece` (src/lib/game/actions.ts:231-240) sets no `active` value, and the schema's default is not part of this model. `Actions.GameStore.MovePiece`, `ServerRules.AppendReplays` and `ServerRules.UndoAfterMove` rest on this.
- capturePiece: it is the same action as `movePiece` (src/lib/game/actions.ts:244-273), so `Actions.GameStore.MovePiece` models both.
- `undoMove`'s `if (!updated)` check is not modelled. An update of a selected entry always succeeds.
