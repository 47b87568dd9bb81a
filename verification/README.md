# Bingo game core in Dafny

This project models the game core of an Android Bingo app. That core is:

- the card board;
- its three win patterns (Row, Four Corners, Full House) and the win check;
- the pure session reducer, which turns the game state and an action into the next state;
- the session controller, which owns that state and the automatic-draw job;
- the two mapping layers around the cards payload: network payload to domain model, and domain model to and from the database rows.

The modules are:

- `Wrappers`: `Option` and `Result`.
- `Sequences` (`sequences.dfy`): order-preserving sublists, used for the win lists and the relation read.
- `Board` (`board.dfy`): the board geometry, marking, patterns, `CheckWins` and its properties.
- `Reducer` (`reducer.dfy`): the game state and actions, `Reduce`, the session invariant `Consistent` and per-action lemmas.
- `Session` (`session.dfy`): the `GameViewModel` class. Its fields are the state and the job reference. Its methods change both.
- `DomainModelMapper` (`domain_model_mapper.dfy`): payload-to-domain defaulting and its inverse.
- `DaoModelMapper` (`dao_model_mapper.dfy`): card and prize rows, the read-back conversions and the store-then-load round trip.

Where the original throws, the model returns a `Result` or an `Option`. There are two such cases:

- Reading a cell outside a row throws `IndexOutOfBounds`. The win check does this on a board whose row is shorter than the first row.
- The JSON decoder can throw on stored matrix text.

A Row set holds every cell of its row, and the Four Corners set holds the corner cells, blank or not. A blank cell is never marked, so a set containing a blank never wins (`Board.RowWithBlankNeverWins` for rows, `Board.FourCornersWonIff` for the corners).

Only a row shorter than the first row makes the win check throw; longer rows are accepted, and their extra cells are never read.

`resume` in Auto mode starts a new draw job without cancelling the one the controller still references. After a `start` in Auto mode followed by `resume`, the first job is no longer referenced, so no later `pause`, `reset` or `start` can cancel it: the controller does not keep at most one active timer. The ensures of `Session.GameViewModel.Resume` state this: `detachedJobs` grows by one whenever a job was referenced before.

## Model

| member | source | states |
|---|---|---|
| Board.Rows | core/model/src/main/java/com/smmousavi/developer/lvtgames/core/model/domain/game/GameBoard.kt:6 | no ensures of its own: the number of rows; `Board.Positions` and `Board.RowMajorSpec` give its meaning as the height of the enumerated grid |
| Board.Cols | core/model/src/main/java/com/smmousavi/developer/lvtgames/core/model/domain/game/GameBoard.kt:7 | no ensures of its own: the first row's length, or 0 without rows; `Board.Positions` and `Board.RowMajorSpec` give its meaning as the width of the enumerated grid |
| Board.ValueAt | core/model/src/main/java/com/smmousavi/developer/lvtgames/core/model/domain/game/GameBoard.kt:8 | reading a cell succeeds exactly when the position indexes an existing cell, and then yields that cell; otherwise it fails with IndexOutOfBounds |
| Board.RowMajorSpec | core/model/src/main/java/com/smmousavi/developer/lvtgames/core/model/domain/game/GameBoard.kt:9-11 | the row-major walk has rows*cols positions, contains exactly the grid positions, and is strictly increasing in row-then-column order (so each position appears once) |
| Board.Positions | core/model/src/main/java/com/smmousavi/developer/lvtgames/core/model/domain/game/GameBoard.kt:6-11 | the enumerated positions are exactly the rows x cols rectangle (cols taken from the first row), each once, in row-major order |
| Board.ReadableIffPositionsReadable | core/model/src/main/java/com/smmousavi/developer/lvtgames/core/model/domain/game/GameBoard.kt:7-11 | every enumerated position can be read exactly when no row is shorter than the first |
| Board.MarkedPositions | core/model/src/main/java/com/smmousavi/developer/lvtgames/core/model/domain/game/GameBoard.kt:20-21 | fails exactly on a board with a row shorter than the first; otherwise a position is marked iff it is on the grid and its cell is present, not -1, and drawn |
| Board.MarkedMonotone | core/model/src/main/java/com/smmousavi/developer/lvtgames/core/model/domain/game/GameBoard.kt:20-21 | drawing more numbers never unmarks a position |
| Board.PatternNameInjective | core/model/src/main/java/com/smmousavi/developer/lvtgames/core/model/domain/game/GameBoard.kt:28-48 | the three patterns have distinct names, so they never overwrite each other in a win check |
| Board.FullHouseSets | core/model/src/main/java/com/smmousavi/developer/lvtgames/core/model/domain/game/GameBoard.kt:44-48 | fails exactly on an unreadable board; otherwise one set holding exactly the grid positions with a present, non -1 cell |
| Board.PatternPositions | core/model/src/main/java/com/smmousavi/developer/lvtgames/core/model/domain/game/GameBoard.kt:28-48 | only Full House can fail, and it fails exactly on an unreadable board |
| Board.RowSets | core/model/src/main/java/com/smmousavi/developer/lvtgames/core/model/domain/game/GameBoard.kt:28-32 | no ensures of its own: the Row pattern's sets; `Board.RowsPatternShape` states what they are |
| Board.CornerSets | core/model/src/main/java/com/smmousavi/developer/lvtgames/core/model/domain/game/GameBoard.kt:34-42 | no ensures of its own: the Four Corners pattern's sets; `Board.FourCornersShape` states what they are |
| Board.RowsPatternShape | core/model/src/main/java/com/smmousavi/developer/lvtgames/core/model/domain/game/GameBoard.kt:28-32 | Row yields one set per row; set r holds exactly the cols grid cells of row r |
| Board.FourCornersShape | core/model/src/main/java/com/smmousavi/developer/lvtgames/core/model/domain/game/GameBoard.kt:34-42 | no set on a board without rows or columns; otherwise one set holding exactly the positions in the first or last row and the first or last column, all on the grid, of size 1, 2 or 4 according to whether there is one row and one column |
| Board.FullHouseShape | core/model/src/main/java/com/smmousavi/developer/lvtgames/core/model/domain/game/GameBoard.kt:44-48 | Full House yields exactly one set, the playable grid positions, on a readable board and fails otherwise |
| Board.Surviving | core/model/src/main/java/com/smmousavi/developer/lvtgames/core/model/domain/game/GameBoard.kt:56 | the sets kept by the filter are an order-preserving sublist of the input, and a set is kept iff it lies wholly inside the marked positions; how often each is kept is `Board.SurvivingCounts` |
| Board.SurvivingCounts | core/model/src/main/java/com/smmousavi/developer/lvtgames/core/model/domain/game/GameBoard.kt:56 | a set wholly inside the marked positions is kept as often as the input lists it, and any other set not at all |
| Board.SurvivingMonotone | core/model/src/main/java/com/smmousavi/developer/lvtgames/core/model/domain/game/GameBoard.kt:56 | with more marked positions, the sets kept before are still kept, in order |
| Board.CompletedSpec | core/model/src/main/java/com/smmousavi/developer/lvtgames/core/model/domain/game/GameBoard.kt:53-56 | a pattern's completed sets are, in order, exactly its sets whose every position is on the grid and holds a drawn number, each as often as the pattern lists it |
| Board.Achieved | core/model/src/main/java/com/smmousavi/developer/lvtgames/core/model/domain/game/GameBoard.kt:54-59 | the built map has only names of listed patterns as keys; a listed pattern's name is a key iff it completed a set, and it then maps to that pattern's completed sets |
| Board.CheckWins | core/model/src/main/java/com/smmousavi/developer/lvtgames/core/model/domain/game/GameBoard.kt:52-61 | the win check throws exactly on a board with a row shorter than the first |
| Board.CheckWinsSpec | core/model/src/main/java/com/smmousavi/developer/lvtgames/core/model/domain/game/GameBoard.kt:52-61 | on a readable board, only listed pattern names are reported; a listed pattern is reported iff one of its sets is entirely drawn, and then with exactly those sets, in the pattern's order |
| Board.CheckWinsCounts | core/model/src/main/java/com/smmousavi/developer/lvtgames/core/model/domain/game/GameBoard.kt:52-61 | in a reported pattern's list, an entirely drawn set occurs as often as the pattern lists it, and any other set not at all |
| Board.CheckWinsMonotone | core/model/src/main/java/com/smmousavi/developer/lvtgames/core/model/domain/game/GameBoard.kt:52-61 | drawing more numbers keeps every reported pattern reported, and its earlier winning sets stay among its winning sets, in order |
| Board.NothingDrawnOnlyEmptySetsWin | core/model/src/main/java/com/smmousavi/developer/lvtgames/core/model/domain/game/GameBoard.kt:52-61 | with nothing drawn, every reported winning set is empty |
| Board.EmptyFullHouseWinsAtOnce | core/model/src/main/java/com/smmousavi/developer/lvtgames/core/model/domain/game/GameBoard.kt:44-61 | a board without playable cells reports Full House, with the single empty set, before any draw |
| Board.FullHouseWonIff | core/model/src/main/java/com/smmousavi/developer/lvtgames/core/model/domain/game/GameBoard.kt:44-61 | Full House is reported iff every playable number of the board has been drawn |
| Board.RowWonIff | core/model/src/main/java/com/smmousavi/developer/lvtgames/core/model/domain/game/GameBoard.kt:28-32 | row r is among the reported Row sets iff every cell of row r holds a drawn number |
| Board.RowWithBlankNeverWins | core/model/src/main/java/com/smmousavi/developer/lvtgames/core/model/domain/game/GameBoard.kt:20-32 | a row with a null or -1 cell is never reported, whatever is drawn |
| Board.FourCornersWonIff | core/model/src/main/java/com/smmousavi/developer/lvtgames/core/model/domain/game/GameBoard.kt:34-61 | Four Corners is reported iff the board has a cell and its four corner cells all hold drawn numbers, and then with the one corner set |
| Reducer.CoerceIn | feature/game/src/main/java/com/smmousavi/developer/lvtgames/feature/game/uimodel/GameBoardUiModel.kt:65 | the result lies in [lo, hi], equals n inside the range, and is the nearer bound outside it |
| Reducer.Reduce | feature/game/src/main/java/com/smmousavi/developer/lvtgames/feature/game/uimodel/GameBoardUiModel.kt:35-72 | the reducer throws exactly where the win check it runs throws: Start with an unreadable board, or Reset and DrawOne on an unreadable board; only Start replaces board and mode. The per-action results are the `*Effect` lemmas and `Reducer.ReducePreservesConsistent` |
| Reducer.InitialStateConsistent | feature/game/src/main/java/com/smmousavi/developer/lvtgames/feature/game/uimodel/GameBoardUiModel.kt:16-24 | the default state (no board, nothing drawn, manual, stopped, no wins) satisfies the session invariant |
| Reducer.ReducePreservesConsistent | feature/game/src/main/java/com/smmousavi/developer/lvtgames/feature/game/uimodel/GameBoardUiModel.kt:35-72 | from a consistent state, only Start with an unreadable board throws, and every other step leads to a consistent state: drawn numbers in 1..90, the last drawn among them, running only in Auto, nothing drawn without a board, wins equal to the board's win check |
| Reducer.DrawnAtMost90 | feature/game/src/main/java/com/smmousavi/developer/lvtgames/feature/game/uimodel/GameBoardUiModel.kt:65-66 | a set of clamped draws has at most 90 numbers |
| Reducer.StartEffect | feature/game/src/main/java/com/smmousavi/developer/lvtgames/feature/game/uimodel/GameBoardUiModel.kt:37-48 | Start succeeds iff the board is readable, then installs board and mode with nothing drawn, runs iff the mode is Auto, clears the error, and reports only empty winning sets |
| Reducer.PauseEffect | feature/game/src/main/java/com/smmousavi/developer/lvtgames/feature/game/uimodel/GameBoardUiModel.kt:50 | Pause clears the running flag, changes nothing else, and is idempotent |
| Reducer.ResumeEffect | feature/game/src/main/java/com/smmousavi/developer/lvtgames/feature/game/uimodel/GameBoardUiModel.kt:51 | Resume runs iff the mode is Auto, regardless of the previous running flag, and changes nothing else |
| Reducer.ResetEffect | feature/game/src/main/java/com/smmousavi/developer/lvtgames/feature/game/uimodel/GameBoardUiModel.kt:52-61 | Reset keeps board and mode, forgets every draw, stops, clears the error, and reports the board's zero-draw wins (none without a board) |
| Reducer.DrawOneWithoutBoard | feature/game/src/main/java/com/smmousavi/developer/lvtgames/feature/game/uimodel/GameBoardUiModel.kt:64 | drawing without a board leaves the state unchanged |
| Reducer.DrawOneEffect | feature/game/src/main/java/com/smmousavi/developer/lvtgames/feature/game/uimodel/GameBoardUiModel.kt:63-69 | with a board, the clamped number (in 1..90) joins the drawn set, which grows by one exactly when the number is new; it becomes the last drawn, the wins are recomputed and the error cleared; board, mode and running flag are kept |
| Reducer.DrawOneIdempotent | feature/game/src/main/java/com/smmousavi/developer/lvtgames/feature/game/uimodel/GameBoardUiModel.kt:63-69 | drawing the same number twice gives the state of drawing it once |
| Reducer.FailEffect | feature/game/src/main/java/com/smmousavi/developer/lvtgames/feature/game/uimodel/GameBoardUiModel.kt:71 | Fail records the message and changes nothing else; a later Fail replaces it |
| Reducer.DrawsOnlyGrow | feature/game/src/main/java/com/smmousavi/developer/lvtgames/feature/game/uimodel/GameBoardUiModel.kt:35-72 | along any run of actions without Start or Reset, a consistent session never fails, keeps its board, only adds drawn numbers, and keeps every reported winning set reported in order |
| Reducer.ResetForgetsDraws | feature/game/src/main/java/com/smmousavi/developer/lvtgames/feature/game/uimodel/GameBoardUiModel.kt:52-69 | Reset after any sequence of draws gives the same state as Reset right away |
| Session.UndrawnFrom | feature/game/src/main/java/com/smmousavi/developer/lvtgames/feature/game/GameViewModel.kt:58 | the pool holds exactly the undrawn numbers from k to 90, strictly increasing |
| Session.UndrawnPoolEmptyIff | feature/game/src/main/java/com/smmousavi/developer/lvtgames/feature/game/GameViewModel.kt:58-59 | the pool of drawRandom is empty exactly when all of 1..90 are drawn |
| Session.PickUndrawn | feature/game/src/main/java/com/smmousavi/developer/lvtgames/feature/game/GameViewModel.kt:58-60 | picks nothing iff all of 1..90 are drawn; otherwise picks an entry of the pool, which is an undrawn number of 1..90 |
| Session.DrawUndrawnEffect | feature/game/src/main/java/com/smmousavi/developer/lvtgames/feature/game/GameViewModel.kt:56-61 | drawing an undrawn number of the range keeps the session consistent; with a board it grows the drawn set by exactly that number and records it as last drawn; without one it changes nothing |
| Session.GameViewModel.constructor | feature/game/src/main/java/com/smmousavi/developer/lvtgames/feature/game/GameViewModel.kt:23-28 | a new controller holds the default state, no job, and satisfies its invariant |
| Session.GameViewModel.StopAuto | feature/game/src/main/java/com/smmousavi/developer/lvtgames/feature/game/GameViewModel.kt:72-75 | after stopping, no job is referenced |
| Session.GameViewModel.StartAuto | feature/game/src/main/java/com/smmousavi/developer/lvtgames/feature/game/GameViewModel.kt:63-70 | the new job is referenced; a job still referenced before is not cancelled and counts as detached |
| Session.GameViewModel.Start | feature/game/src/main/java/com/smmousavi/developer/lvtgames/feature/game/GameViewModel.kt:30-34 | throws exactly on an unreadable board, leaving the state unchanged and no job; otherwise the state is the reducer's Start result, and a job runs iff the mode is Auto; the invariant is kept either way |
| Session.GameViewModel.Pause | feature/game/src/main/java/com/smmousavi/developer/lvtgames/feature/game/GameViewModel.kt:36-39 | cancels the job and moves to the reducer's Pause result, keeping the invariant |
| Session.GameViewModel.Resume | feature/game/src/main/java/com/smmousavi/developer/lvtgames/feature/game/GameViewModel.kt:41-45 | in Auto mode launches a job at the mode's interval, detaching one still referenced; in Manual mode has no job; the state is the reducer's Resume result |
| Session.GameViewModel.Reset | feature/game/src/main/java/com/smmousavi/developer/lvtgames/feature/game/GameViewModel.kt:47-50 | cancels the job and moves to the reducer's Reset result, keeping the invariant |
| Session.GameViewModel.Draw | feature/game/src/main/java/com/smmousavi/developer/lvtgames/feature/game/GameViewModel.kt:52-54 | moves to the reducer's DrawOne result, keeping the invariant, the job untouched |
| Session.GameViewModel.DrawRandom | feature/game/src/main/java/com/smmousavi/developer/lvtgames/feature/game/GameViewModel.kt:56-61 | picks nothing (and changes nothing) iff all 90 numbers are drawn; otherwise picks an undrawn number of 1..90 and draws it; with a board the drawn set grows by exactly that number |
| DomainModelMapper.SafeRows | core/model/src/main/java/com/smmousavi/developer/lvtgames/core/model/domain/DomainModelMapper.kt:11 | one row per payload row, a present row passed through unchanged and a missing row replaced by an empty one |
| DomainModelMapper.SafeMatrix | core/model/src/main/java/com/smmousavi/developer/lvtgames/core/model/domain/DomainModelMapper.kt:10-11 | a missing matrix becomes three empty rows; a present one has its rows made safe |
| DomainModelMapper.AsPrizes | core/model/src/main/java/com/smmousavi/developer/lvtgames/core/model/domain/DomainModelMapper.kt:17-25 | one prize per payload prize, in order |
| DomainModelMapper.AsCards | core/model/src/main/java/com/smmousavi/developer/lvtgames/core/model/domain/DomainModelMapper.kt:9-39 | one card per payload card, in order |
| DomainModelMapper.AsDomainModel | core/model/src/main/java/com/smmousavi/developer/lvtgames/core/model/domain/DomainModelMapper.kt:8-41 | a missing card list gives an empty model; otherwise one card per payload card, in order |
| DomainModelMapper.CardFields | core/model/src/main/java/com/smmousavi/developer/lvtgames/core/model/domain/DomainModelMapper.kt:10-37 | a present id, name or bet is copied, and a missing one becomes 0, "Card" or 0; missing prizes give none; a missing colour gives the default colours; a missing matrix gives three empty rows |
| DomainModelMapper.PrizeFields | core/model/src/main/java/com/smmousavi/developer/lvtgames/core/model/domain/DomainModelMapper.kt:18-24 | each prize field is copied when present and otherwise becomes 0, "", 0, "" or -1 |
| DomainModelMapper.ColorFields | core/model/src/main/java/com/smmousavi/developer/lvtgames/core/model/domain/DomainModelMapper.kt:26-36 | each colour field is copied when present; when it or the whole colour object is missing, it takes its own fixed hex default |
| DomainModelMapper.EmptyCardDefaults | core/model/src/main/java/com/smmousavi/developer/lvtgames/core/model/domain/DomainModelMapper.kt:13-38 | a card with every field missing becomes the all-defaults card |
| DomainModelMapper.CardRoundTrip | core/model/src/main/java/com/smmousavi/developer/lvtgames/core/model/domain/DomainModelMapper.kt:13-38 | a payload card with every field present converts to exactly the card it describes |
| DomainModelMapper.RoundTrip | core/model/src/main/java/com/smmousavi/developer/lvtgames/core/model/domain/DomainModelMapper.kt:8-41 | a payload with nothing missing converts to exactly the model it describes, so no present value is ever altered |
| DomainModelMapper.Normalising | core/model/src/main/java/com/smmousavi/developer/lvtgames/core/model/domain/DomainModelMapper.kt:8-41 | converting is idempotent: re-describing a converted model as a payload and converting it again changes nothing |
| DaoModelMapper.CardEntities | core/database/src/main/java/com/smmousavi/developer/lvtgames/core/database/DaoModelMapper.kt:11-27 | one row per card, in order, with id, name and bet copied, the matrix stored as its encoding, and the seven colours preserved |
| DaoModelMapper.AsCardEntity | core/database/src/main/java/com/smmousavi/developer/lvtgames/core/database/DaoModelMapper.kt:11-27 | one card row per card, in order |
| DaoModelMapper.PrizeRows | core/database/src/main/java/com/smmousavi/developer/lvtgames/core/database/DaoModelMapper.kt:30-40 | one row per prize of the card, in order, each with a generated key and the card's id |
| DaoModelMapper.PrizeRowsFrom | core/database/src/main/java/com/smmousavi/developer/lvtgames/core/database/DaoModelMapper.kt:30-40 | one row per prize, in order, each tagged with the given card id |
| DaoModelMapper.AllPrizeRows | core/database/src/main/java/com/smmousavi/developer/lvtgames/core/database/DaoModelMapper.kt:29-41 | as many rows as prizes over all cards, each with key 0 and the id of one of the cards |
| DaoModelMapper.AsPrizeEntity | core/database/src/main/java/com/smmousavi/developer/lvtgames/core/database/DaoModelMapper.kt:29-41 | the prize rows of every card, card after card: as many rows as prizes, card k's l-th prize at the position after all prizes of the cards before it, tagged with key 0 and card k's id and its fields copied |
| DaoModelMapper.PrizeRowsLayout | core/database/src/main/java/com/smmousavi/developer/lvtgames/core/database/DaoModelMapper.kt:29-41 | in the flattened prize rows, card k's l-th row is its l-th prize with its id, placed after the rows of all earlier cards |
| DaoModelMapper.WithCardId | core/database/src/main/java/com/smmousavi/developer/lvtgames/core/database/entity/CardWithPrizesEntity.kt:9-10 | the relation's selection: exactly the prize rows carrying the id; their order and multiplicity are `DaoModelMapper.WithCardIdKeeps` |
| DaoModelMapper.WithCardIdKeeps | core/database/src/main/java/com/smmousavi/developer/lvtgames/core/database/entity/CardWithPrizesEntity.kt:9-10 | the rows selected for an id keep their table order, and each row carrying the id occurs as often as in the table |
| DaoModelMapper.Relate | core/database/src/main/java/com/smmousavi/developer/lvtgames/core/database/entity/CardWithPrizesEntity.kt:6-11 | each card row paired with exactly the prize rows of its id |
| DaoModelMapper.PrizesOf | core/database/src/main/java/com/smmousavi/developer/lvtgames/core/database/DaoModelMapper.kt:50-58 | one prize per prize row, in order |
| DaoModelMapper.CardOf | core/database/src/main/java/com/smmousavi/developer/lvtgames/core/database/DaoModelMapper.kt:44-69 | a card row converts iff its matrix text decodes; the card then has the row's id, name, bet and colours, the decoded matrix and the rows' prizes in order |
| DaoModelMapper.CardsOf | core/database/src/main/java/com/smmousavi/developer/lvtgames/core/database/DaoModelMapper.kt:43-71 | succeeds iff every row's matrix decodes, then gives one card per row, in order |
| DaoModelMapper.AsCardsModel | core/database/src/main/java/com/smmousavi/developer/lvtgames/core/database/DaoModelMapper.kt:43-71 | throws iff some stored matrix does not decode; otherwise one card per row, in order, each the conversion of its row |
| DaoModelMapper.AsCardsDao | core/database/src/main/java/com/smmousavi/developer/lvtgames/core/database/DaoModelMapper.kt:73-100 | throws iff some stored matrix does not decode, and otherwise gives one card per row; `DaoModelMapper.DaoAgreesWithModel` states that the cards are those of `asCardsModel`, field for field |
| DaoModelMapper.PrizeDaosAgree | core/database/src/main/java/com/smmousavi/developer/lvtgames/core/database/DaoModelMapper.kt:79-87 | the plain prize shape is the model prize, field for field |
| DaoModelMapper.CardDaosAgree | core/database/src/main/java/com/smmousavi/developer/lvtgames/core/database/DaoModelMapper.kt:73-100 | the plain card list is produced exactly when the model card list is, and is then that list field for field |
| DaoModelMapper.DaoAgreesWithModel | core/database/src/main/java/com/smmousavi/developer/lvtgames/core/database/DaoModelMapper.kt:43-100 | asCardsDao and asCardsModel throw on the same rows, and otherwise give the same cards field for field |
| DaoModelMapper.WithCardIdOfRows | core/database/src/main/java/com/smmousavi/developer/lvtgames/core/database/DaoModelMapper.kt:29-41 | selecting an id from one card's prize rows keeps all of them if it is that card's id, otherwise none |
| DaoModelMapper.WithCardIdConcat | core/database/src/main/java/com/smmousavi/developer/lvtgames/core/database/entity/CardWithPrizesEntity.kt:9-10 | selecting by id distributes over concatenated tables |
| DaoModelMapper.OwnRows | core/database/src/main/java/com/smmousavi/developer/lvtgames/core/database/DaoModelMapper.kt:29-41 | with distinct card ids, the prize rows carrying a card's id are exactly the rows written for that card, in order |
| DaoModelMapper.NoRowsFor | core/database/src/main/java/com/smmousavi/developer/lvtgames/core/database/DaoModelMapper.kt:29-41 | no prize row carries an id that no card has |
| DaoModelMapper.SelectedCount | core/database/src/main/java/com/smmousavi/developer/lvtgames/core/database/DaoModelMapper.kt:29-41 | the prize rows written with an id are exactly as many as the prizes of all cards with that id |
| DaoModelMapper.PrizesBack | core/database/src/main/java/com/smmousavi/developer/lvtgames/core/database/DaoModelMapper.kt:29-58 | reading a card's prize rows back gives its prizes |
| DaoModelMapper.StoreThenLoad | core/database/src/main/java/com/smmousavi/developer/lvtgames/core/database/DaoModelMapper.kt:11-71 | if the serializer reads back each matrix it wrote and card ids are distinct, storing a model as card and prize rows and reading them back gives the same model |
| DaoModelMapper.SharedIdMixesPrizes | core/database/src/main/java/com/smmousavi/developer/lvtgames/core/database/DaoModelMapper.kt:29-71 | for any model with two cards sharing an id, one of them with a prize: the other card reads that prize back as well, so storing and loading never gives the model again |

## Left out

- The automatic-draw coroutine is not modelled. It is an endless `delay` loop that calls `drawRandom`. `autoJob` records only whether the controller references a job and at which interval it ticks. The ghost field `detachedJobs` counts jobs whose reference was overwritten while they still ran. The timer, the concurrent interleaving of timer draws with user actions, and `viewModelScope` cancellation are left out.
- `Session.PickUndrawn` does not model the seeded `Random`. The number is chosen nondeterministically from the pool, and the contract holds whichever number is chosen.
- `Session.GameViewModel.Valid` is weaker than "running iff a job exists". `start` on a board whose win check throws leaves the previous state in place, which may still be running, and the previous job already cancelled. The model keeps that reachable state.
- The state flow's atomic `update`, its observers and the UI are not modelled. The one state field is replaced directly, and a throwing `update` leaves it unchanged.
- The default interval of `DrawMode.Auto` (`intervalMillis = 1200L`) is not modelled. Every `Auto` value carries an explicit interval.
- `start`'s default argument `mode = DrawMode.Manual` is not modelled. Callers always pass a mode.
- The use case's pattern list is the constructor parameter `patterns`. The app passes `[Row, Four Corners, Full House]`, and every lemma holds for any list.
- Integer widths are not modelled. Kotlin `Int` and `Long` are unbounded integers here. No modelled operation does arithmetic that could overflow on board numbers in 1..90.
- The JSON serializer of the persistence mapping is a parameter, `Json`. It holds an encoder and a decoder, and a decode that throws is `None`. The text format itself is not modelled.
- `DaoModelMapper.StoreThenLoad` relies on two parts of the database that are not modelled. `Relate` stands for the one-to-many relation read: each card row with the prize rows carrying its id, in insertion order. The database's `ORDER BY id` read order, its `REPLACE` conflict rule, generated prize keys and the clear-then-insert upsert sequence are all left out. The lemma therefore reads the cards back in the order they were written.
- `DaoModelMapper.SharedIdMixesPrizes` covers shared ids only when one of the cards has a prize. Cards sharing an id that all have no prizes read back no prize rows, so their round trip is not ruled out. `DaoModelMapper.StoreThenLoad` nevertheless asks for distinct ids.
- `GameBoard.fromMatrix` is not modelled; it only wraps the matrix. The presentation code that builds a board from a card is not part of this model.
- The `domain.cards.CardsModel` class that the persistence mapping targets is not part of this model. Its shape (`colors: CardColors`) is taken from the mapping's use of it and declared in `DaoModelMapper`.
