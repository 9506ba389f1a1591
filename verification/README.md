# Decision room: a verified model

Decision room is a Go backend with a browser client for thinking decisions through. Its judgement is kept in small
deterministic procedures: which lenses answer a question, how a campaign is drawn as a map, what a quarter is sealed
with, when a missed clock is re-armed, how text is cut, folded and reordered on its way to and from a model. This project
writes those procedures in Dafny and proves what they are for. `dafny verify dfyconfig.toml` checks all of it.

Where the program works by changing things step by step, the model does too: classes with fields for the limiter, the
theatre's running totals, the stream builder, the record, the beast board, the map and the open loops, and loops with
their invariants elsewhere. Each such method is proved equal to a specification function, or against a property; the
laws are then lemmas about those specifications, and the `Effects` modules, with `Seating`, `Rows`, `Grounds` and
`ChunkForm`, say with literal values what each operation answers and leaves behind. Go's unordered maps are walked in
arbitrary order, so nothing proved depends on it.

| part | files |
|---|---|
| roster of lenses | `Ranking`, `Lenses`, `Scoring`, `Selection`, `RosterLaws`, `Seating` |
| rate limiter | `RateLimit` |
| text: chunks, passages, headings | `Text`, `Packing`, `PackingLaws`, `Headings`, `Doctrine`, `Markdown`, `ChunkForm` |
| streams: Gemini parts, browser frames | `StreamParts`, `StreamEffects`, `Frames`, `FrameEffects` |
| reranking | `Rerank`, `RerankLaws`, `RerankEffects`, `ModelOrder`, `ModelEffects` |
| the map: theatre, front line, items | `Partition`, `Theatre`, `TheatreLaws`, `Rows`, `Grounds`, `FrontLine`, `Lifting`, `Items`, `ItemsDesk`, `ItemsLaws`, `ItemsEffects` |
| supply, funds and energy | `Supply`, `SupplyEffects`, `Funds`, `FundsEffects`, `Energy` |
| campaign record | `Calibration`, `Record`, `RecordBook`, `RecordLaws`, `RecordEffects` |
| beast board | `Clocks`, `Board`, `BoardDesk`, `BoardLaws`, `BoardEffects` |
| open loops | `Commitments`, `CommitmentsLaws`, `CommitmentsEffects` |

Numbers the program keeps as floating point are exact reals here, identifiers are natural numbers compared only by
equality and order, moments and days are integers. A table is a map or a sequence that obeys what its SQL says: guarded
updates, unique indexes, rows unfiled when a quarter goes. One operation is one step, except where the program is built
for a race: re-arming is a listing followed by one conditional update at a time, interleaved with everything else.

## What the code does not keep

Five statements a reader might expect are false of the code. Each has an input that shows it and, for all inputs, the
exact condition under which the code does meet it.

- Holding a roster twice is not holding it once when seats had to be filled: `RosterLaws.FilledSeatCanBeLost`. It is
  exactly when nobody on the bench can challenge the filled roster: `RosterLaws.HeldAgainIff`.
- A list that all fits is not diversified but comes back in the order it had: `RerankLaws.TwinsAreNotStepwise`,
  `RerankLaws.SwappedAreNotStepwise`. `RerankLaws.StepwiseIff` gives the lengths.
- A resolved unknown need not carry an answer, because an update can resolve it: `ItemsLaws.UpdateCanForget`. It does
  exactly as long as no such update suits the unknown it names: `ItemsLaws.AnsweredIff`.
- Lifting an unknown can move the front line back, if it was only proposed and orders were out for it already:
  `Lifting.LiftingCanMoveBack`. `Lifting.LiftingAProposal` says exactly when it does not.
- Tracking a loop twice can be refused: `CommitmentsLaws.TrackingCanFail`. It is exactly when 500 live rows are listed
  before the one there is: `CommitmentsLaws.TrackingTwiceIff`.

Where a comment and the code part, the code is followed: the port says a campaign handed to be sealed already carries
the closed phase (`backend/internal/campaign/port/repository.go:110-112`); the caller never sets it, and the table update
does (`backend/internal/campaign/adapters/driven/postgres/record.go:193-197`). The port of the open loops promises
a listing latest touched first (`backend/internal/commitments/port/repository.go:22`); the query puts proposals first and
goes by due date before that (`backend/internal/commitments/adapters/driven/postgres/repository.go:76-77`).

## Model

| member | source | states |
|---|---|---|
| `Selection.Select` | backend/internal/generals/service/select.go:81-170 | the pick for a question is the known part of the person's own pick, else the held roster, else a fresh pick; `Seating.SeatsAreHeld`, `Seating.FreshStartsWithTheTop` and `RosterLaws.SelectionIs` say what each comes to |
| `Selection.Hold` | backend/internal/generals/service/select.go:177-232 | the loop that overwrites the weakest seat, stops at the first failure and then fills, with its method name, gives the contest of `Reseat` followed by `Fill` |
| `Selection.FindWeakest` | backend/internal/generals/service/select.go:208-216 | the last of the lowest-scoring seats not taken in this contest, or none when every seat was |
| `Selection.GatherChallengers` | backend/internal/generals/service/select.go:186-203 | the bench ranked by score then identifier, only those with full keyword evidence |
| `Selection.Backfill` | backend/internal/generals/service/select.go:292-325 | the filling loop, with its early exits, takes families in the order opposing ones first and stops at `max` |
| `Selection.FindBest` | backend/internal/generals/service/select.go:335-351 | the best unused general of a family, ties to the smaller identifier; none exactly when the family has none unused |
| `Selection.BestIn` | backend/internal/generals/service/select.go:335-351 | the result is an unused general of the family that no other outranks, and is missing exactly when there is none |
| `Selection.AdjustScores` | backend/internal/generals/service/select.go:103-120 | penalty for lenses just used, then a bonus for the leader's rivals when there is room for two |
| `Selection.PickTop` | backend/internal/generals/service/select.go:143-159 | the ranking down to the floor and at most `max`, or the fallback lens |
| `Selection.ChallengersAre` | backend/internal/generals/service/select.go:186-203 | a general is a challenger exactly when it is off the roster with full evidence; challengers come strictly ranked |
| `Scoring.Score` | backend/internal/generals/service/select.go:237-267 | the loop over lenses and phrases fills the two tables; `ScoreTableAt` says what each entry is |
| `Scoring.ScoreTableAt` | backend/internal/generals/service/select.go:237-267 | a general's entry is its seed, its capped keyword evidence and its family nudge added up, and its gain the keyword part |
| `Scoring.RankAll` | backend/internal/generals/service/select.go:122-141 | walking the score map in any order and sorting gives the one ranking there is |
| `Scoring.RankedGeneralsAre` | backend/internal/generals/service/select.go:122-141 | the ranking holds each scored general once, strictly ordered by score then identifier |
| `Scoring.TopScored` | backend/internal/generals/service/select.go:386-402 | the leader found walking the map in any order is the first of the ranking |
| `RosterLaws.HeldIsAFixpoint` | backend/internal/generals/service/select.go:177-232 | when the seats reach `max`, holding the outcome again on the same question gives the same lenses and the method sticky |
| `RosterLaws.SelectingAgain` | backend/internal/generals/service/select.go:81-101 | a full held roster, named back by its identifiers and asked the same, is selected whole and sticky |
| `RosterLaws.HeldAgainIff` | backend/internal/generals/service/select.go:177-232 | with seats that had to be filled, holding again keeps the lenses exactly when nobody on the bench can challenge the filled roster |
| `RosterLaws.FilledSeatCanBeLost` | backend/internal/generals/service/select.go:177-232 | a concrete registry and question where a filled seat is lost the second time, so the fixpoint needs a full roster |
| `RosterLaws.StoppingEarlyLosesNothing` | backend/internal/generals/service/select.go:205-223 | stopping at the first failed challenge gives the same roster as letting every challenger try |
| `RosterLaws.HeldSeats` | backend/internal/generals/service/select.go:177-232 | a replaced seat went to a general off the roster with full keyword evidence who beat it by the margin; every other seat keeps its lens in place; sticky exactly when nothing changed and the seats are full; no repeats are made |
| `RosterLaws.NobodyChallengesTheOutcome` | backend/internal/generals/service/select.go:205-223 | whoever is left on the bench after a contest cannot take a seat in its outcome |
| `RosterLaws.UnseatedAreWeakest` | backend/internal/generals/service/select.go:205-223 | no lens that lost its seat outscores one in the outcome |
| `RosterLaws.FreshPick` | backend/internal/generals/service/select.go:103-170 | no repeats, at most `max`, something whenever a general exists, each filled lens from a family nobody before it has, short of `max` only when every listed family that has a general is represented |
| `RosterLaws.PickedIsTheTop` | backend/internal/generals/service/select.go:143-149 | before filling, the pick is the top of the ranking: all in it clear the floor and anyone ranked and left out is under the floor or came after a full pick |
| `RosterLaws.FallbackOnlyUnderTheFloor` | backend/internal/generals/service/select.go:143-159 | the fallback is reached only when no scored general clears the floor, and gives one lens where there is a general |
| `RosterLaws.FreshScoreAt` | backend/internal/generals/service/select.go:103-120 | the score a fresh pick ranks by: fit, less the penalty, plus one bonus for each time the leader names it a rival |
| `RosterLaws.FillBringsNewFamilies` | backend/internal/generals/service/select.go:292-325 | each lens filled in is the best unused general of a family not represented before it |
| `RosterLaws.ShortOnlyWhenExhausted` | backend/internal/generals/service/select.go:292-325 | a roster short of `max` represents every wanted family or has used all its generals |
| `RosterLaws.SelectionIs` | backend/internal/generals/service/select.go:81-170 | at most as many lenses as asked for, some whenever there is a general, and the person's own pick first and untouched, exactly when any of it is known |
| `Seating.SeatsAreHeld` | backend/internal/generals/service/select.go:99-101 | unless the person picks, with anyone seated, however few: the first n seats, n the smaller of `max` and how many are seated, each keep their lens, sticky, or go to a general off the roster with full evidence and at least that lens's fit and the margin |
| `Seating.TheBenchFallsShort` | backend/internal/generals/service/select.go:186-223 | and nobody with full evidence who is left out reaches the fit of any of those seats plus the margin |
| `Seating.ASittingLensIsNotDropped` | backend/internal/generals/service/select.go:99-101 | one of two seats taken and two better matches on the bench: the sitting lens stays and one of them fills the other seat |
| `Seating.FreshStartsWithTheTop` | backend/internal/generals/service/select.go:143-159 | with nobody seated the answer starts with the top of the ranking, all at the floor or above, as many as there are or fit; with none, the fallback lens or the first general |
| `Seating.FreshScoreIs` | backend/internal/generals/service/select.go:103-120 | a fresh pick ranks by fit, 0.25 less for a lens just used, 0.5 more for each time the leader names it a rival; with room for one no bonus |
| `Seating.FitIs` | backend/internal/generals/service/select.go:237-267 | fit is 1 for a lens the mode starts from, 0.6 for each phrase said up to two, 0.3 for a family the mode leans to |
| `Seating.OpponentsComeFirst` | backend/internal/generals/service/select.go:292-325 | a seat is filled from a family that does not argue against the lenses chosen only when each that does is represented or has nobody left |
| `Seating.OpposingAre` | backend/internal/generals/service/select.go:282-288 | which families argue against which, by name |
| `Seating.BestInIs` | backend/internal/generals/service/select.go:335-351 | nobody unused of the family scores higher, or as high with a smaller identifier |
| `Seating.WeakestIsTheLast` | backend/internal/generals/service/select.go:208-216 | no seat still open to contest scores less, and none behind it as little |
| `Seating.NamesInOrder` | backend/internal/generals/service/select.go:81-101 | names are taken in order, each known general once, at the end |
| `RateLimit.Limiter.Allow` | backend/internal/infra/http/ratelimit.go:44-74 | the answer, the wait and the whole new state of one attempt, sweep included; `AnswerIs` says which answer, `GrantedIff` over runs |
| `RateLimit.Limiter.Sweep` | backend/internal/infra/http/ratelimit.go:49-55 | deleting from the map while walking it in any order removes exactly the expired keys |
| `RateLimit.Limiter.Reset` | backend/internal/infra/http/ratelimit.go:77-81 | the key is forgotten and nothing else changes |
| `RateLimit.TalliedRoll` | backend/internal/infra/http/ratelimit.go:83-88 | rolling a window keeps the account: its count stays the number of successes since its start and within the budget, with no interval one window long ever having held more than twice that |
| `RateLimit.PruningIsInvisible` | backend/internal/infra/http/ratelimit.go:44-74 | in every run with a clock that never runs back, every call is told the same, wait included, as by a limiter that never sweeps |
| `RateLimit.TotalBound` | backend/internal/infra/http/ratelimit.go:44-88 | over every run, resets included, no interval one window long holds more than twice the total budget of successful attempts |
| `RateLimit.KeyBound` | backend/internal/infra/http/ratelimit.go:44-88 | the same for one key and its own budget in runs that do not reset it |
| `RateLimit.OnlyGrantsCount` | backend/internal/infra/http/ratelimit.go:44-74 | a grant adds one to its key and to the total; a refusal adds nothing anywhere, now or later |
| `RateLimit.WaitsAreWithinOneWindow` | backend/internal/infra/http/ratelimit.go:65-70 | every wait told is positive and at most one window |
| `RateLimit.WaitIsExact` | backend/internal/infra/http/ratelimit.go:65-74 | until the wait is over every further attempt on the key is refused with what is left of it; the first at or after it is not refused on the key's budget |
| `RateLimit.AnswerIs` | backend/internal/infra/http/ratelimit.go:44-74 | from any state: granted exactly when the key and the total are both under their budgets, refused on the key exactly when it is not, on the total exactly when only that is not, with what is left of the window as the wait |
| `RateLimit.GrantedIff` | backend/internal/infra/http/ratelimit.go:44-74 | over every run the i-th call is granted exactly when its key and all keys have had fewer than their budgets of successes since their windows began |
| `RateLimit.ResetForgets` | backend/internal/infra/http/ratelimit.go:77-81 | after a reset the key has used nothing, and every other key and the total what they had |
| `RateLimit.SweepsAboveTheMark` | backend/internal/infra/http/ratelimit.go:49-55 | a sweep runs exactly above 1024 keys, and then the keys whose window is over are gone |
| `Packing.ChunkText` | backend/internal/memory/service/chunk.go:13-61 | the builder loop over the words gives the greedy packing with one space between, or the text whole where it fits |
| `Packing.GroupParagraphs` | backend/internal/generals/domain/doctrine.go:80-106 | the paragraph loop gives the same packer with two characters between |
| `PackingLaws.GreedyKeepsUnits` | backend/internal/memory/service/chunk.go:34-58 | every unit comes back once and in order |
| `PackingLaws.GreedyIsLegal` | backend/internal/memory/service/chunk.go:34-58 | each chunk is within the limit or is one oversized unit |
| `PackingLaws.GreedyIsShortest` | backend/internal/memory/service/chunk.go:34-58 | no split into consecutive groups under that rule has fewer chunks |
| `PackingLaws.ChunkedKeepsWords` | backend/internal/memory/service/chunk.go:13-61 | the words of the chunks are the words of the text, in order, at any limit |
| `PackingLaws.ChunkedWithinLimit` | backend/internal/memory/service/chunk.go:13-61 | every chunk is within the limit or is a single word |
| `PackingLaws.GroupedKeepsWords` | backend/internal/generals/domain/doctrine.go:80-106 | the words of the passages are the words of the body, in order |
| `Doctrine.SplitSections` | backend/internal/generals/domain/doctrine.go:52-76 | the flush loop gives one section for each stretch of lines that is not blank, under its heading |
| `Doctrine.Passages` | backend/internal/generals/domain/doctrine.go:37-45 | the two nested loops give each section's groups under its heading, in order |
| `Doctrine.BlocksAre` | backend/internal/generals/domain/doctrine.go:52-76 | one stretch before the first heading and one after each, in order, holding all the other lines |
| `Doctrine.PassagesKeepWords` | backend/internal/generals/domain/doctrine.go:37-76 | the passages say every word outside the headings, once and in order |
| `Doctrine.PassagesAreWhole` | backend/internal/generals/domain/doctrine.go:34-45 | a passage is within 900 characters or is one paragraph left whole |
| `PackingLaws.GreedyIsTheOnly` | backend/internal/memory/service/chunk.go:34-58 | a split of the units in order that is legal, and where each group's first unit would not have fitted before, is the one there is |
| `PackingLaws.ChunkedIs` | backend/internal/memory/service/chunk.go:13-61 | nothing for a blank text, the text itself where it fits, 1200 where no limit is given, and else the packed words with one space between |
| `PackingLaws.GroupedIs` | backend/internal/generals/domain/doctrine.go:80-106 | the trimmed paragraphs, packed with a blank line between |
| `Doctrine.HeadingIs` | backend/internal/generals/domain/doctrine.go:52-76 | a heading is a line that starts with two hashes and a space; its title is what stands behind, trimmed |
| `Doctrine.BlockPassages` | backend/internal/generals/domain/doctrine.go:37-76 | a stretch gives a passage for each of its groups under its own heading, at 900 characters, and none where it is blank |
| `Doctrine.BlocksInTurn` | backend/internal/generals/domain/doctrine.go:37-45 | stretch by stretch, in order |
| `Headings.SplitSections` | backend/internal/memory/service/markdown_chunk.go:162-206 | the walk with its stack and builder gives the sections of the document's blocks, each with its path |
| `Headings.Push` | backend/internal/memory/service/markdown_chunk.go:193-201 | pop to the parent level, pad missing levels with empty titles, push: slots above are kept and the last is the title |
| `Headings.PushIsPath` | backend/internal/memory/service/markdown_chunk.go:193-201 | what pushing does to the stack is what one more heading does to the declared path |
| `Headings.SlotMeaning` | backend/internal/memory/service/markdown_chunk.go:162-206 | slot k holds the last level-k heading not followed by one of a smaller level, and is empty when there is none |
| `Headings.BlocksPartition` | backend/internal/memory/service/markdown_chunk.go:162-206 | one block before the first heading and one for each heading; block i stands under the first i headings; the blocks hold the non-heading lines in order |
| `Headings.SectionsKeepWords` | backend/internal/memory/service/markdown_chunk.go:162-206 | every word outside the headings reaches a section, once and in order |
| `Headings.SectionsStandUnderTheirPath` | backend/internal/memory/service/markdown_chunk.go:162-206 | each section carries the path of the headings above it and a body that is not blank |
| `Markdown.ChunkContent` | backend/internal/memory/service/markdown_chunk.go:37-56 | chunks by headings where there are sections, else word chunks, numbered from zero with their total |
| `Markdown.ChunkMarkdown` | backend/internal/memory/service/markdown_chunk.go:71-108 | the loop over sections gives whole sections where they fit and overlapped parts where they do not |
| `Markdown.NewChunk` | backend/internal/memory/service/markdown_chunk.go:110-130 | levels without a heading are skipped in the breadcrumb, and the breadcrumb stands before the text |
| `Markdown.OverlapFrom` | backend/internal/memory/service/markdown_chunk.go:135-158 | the tail of the part before, from the first boundary that leaves half of it, else the whole tail |
| `Markdown.ContentKeepsWords` | backend/internal/memory/service/markdown_chunk.go:37-108 | each chunk ends with its own part, and the parts say every word outside the headings once and in order; a document of nothing but headings is chunked headings and all |
| `Markdown.OverlapIsInside` | backend/internal/memory/service/markdown_chunk.go:135-158 | the overlap is a stretch of the part before, no longer than the limit |
| `ChunkForm.HeaderIs` | backend/internal/memory/service/markdown_chunk.go:211-240 | a line is a heading of a level exactly when, trimmed, it is one to six hashes, a space and a title |
| `ChunkForm.SectionChunksAre` | backend/internal/memory/service/markdown_chunk.go:71-108 | a section's chunks under its breadcrumb: one where it fits, else its packed words, each part after the first behind what is carried over from the part before |
| `ChunkForm.ContentIs` | backend/internal/memory/service/markdown_chunk.go:37-56 | which chunks a document gives: by sections, in turn, at 2000 characters unless told otherwise, and plain words with nothing in front where there is nothing but headings |
| `ChunkForm.OverlapIs` | backend/internal/memory/service/markdown_chunk.go:135-158 | carried over is a part that is short enough, else its last characters, cut behind the first paragraph, sentence or line end that leaves half |
| `ChunkForm.SomethingIsCarried` | backend/internal/memory/service/markdown_chunk.go:135-158 | from a part that does not end in white space something is always carried over |
| `Theatre.Layout` | backend/internal/campaign/service/theatre.go:29-72 | the lanes drawn and the shared totals at the end of the walk over fronts; `Rows.MapIsDrawn` and `Grounds.TotalsAre` say what they are |
| `Theatre.LayLane` | backend/internal/campaign/service/theatre.go:74-108 | a lane's rows, its line, and what it adds to the shared totals; `Rows.LaneRowsInOrder` and `Rows.LaneRowsShow` say which rows and in what order |
| `Theatre.BuildRow` | backend/internal/campaign/service/theatre.go:144-213 | a row with its held and total ground, and what it adds to the shared totals |
| `Theatre.Children` | backend/internal/campaign/service/theatre.go:124-140 | what bears on an objective, or what bears on none in the lane, in order |
| `Theatre.TheatreTotals.CountItem` | backend/internal/campaign/service/theatre.go:165-204 | one item's weight on the line and its step in the totals |
| `Theatre.TheatreTotals.CountOrders` | backend/internal/campaign/service/theatre.go:148-163 | orders aimed at an item each weigh one, done ones hold it, and recon ones not done are counted apart |
| `Theatre.FileItems` | backend/internal/campaign/service/theatre.go:49-60 | items split by active front, the rest unassigned, each once |
| `TheatreLaws.EveryItemOnce` | backend/internal/campaign/service/theatre.go:29-140 | with unique identifiers, every item not proposed or dropped is on exactly one row of one lane, and nothing else is |
| `TheatreLaws.EveryItemDrawnOnce` | backend/internal/campaign/service/theatre.go:29-230 | the posts drawn over all lanes and rows are those items' posts, each once |
| `TheatreLaws.EveryOrderOnce` | backend/internal/campaign/service/theatre.go:29-213 | the totals count each kept order aimed at a placed item exactly once, as open or as done |
| `TheatreLaws.RowOrdersSumToTotals` | backend/internal/campaign/service/theatre.go:29-213 | the order counts on the rows sum to the totals |
| `TheatreLaws.TotalsCountEveryItem` | backend/internal/campaign/service/theatre.go:29-213 | objective, obstacle and unknown totals sum to the number of items placed |
| `FrontLine.FrontLineAdvances` | backend/internal/campaign/service/theatre.go:74-213 | resolving obstacles, lifting unknowns and taking objectives that are on the map, and finishing orders, in any number, never lowers any lane's line, though rows are re-sorted |
| `Lifting.LiftingAProposal` | backend/internal/campaign/service/theatre.go:29-108 | lifting an unknown still only proposed moves no lane back exactly when its row is a withdrawn objective's or, with k orders aimed at it and d of them done, held * (1 + k) <= (1 + d) * total on the lane it lands on |
| `Lifting.LiftingCanMoveBack` | backend/internal/campaign/usecase/manage.go:263-284 | a map where answering a proposed unknown moves the line from 1 back to 3/4 |
| `Lifting.LiftingAFinishedProposal` | backend/internal/campaign/usecase/manage.go:263-284 | where every order aimed at it is done, lifting a proposed unknown moves no lane back |
| `FrontLine.WithdrawnRowsDoNotCount` | backend/internal/campaign/service/theatre.go:74-213 | striking withdrawn objectives with their children and orders off a lane leaves its line where it was |
| `FrontLine.LineIsWhatCounts` | backend/internal/campaign/service/theatre.go:74-108 | the line is held over total ground of the items that count, whatever the rows |
| `FrontLine.LineWithin` | backend/internal/campaign/service/theatre.go:74-108 | the line lies between zero and one |
| `Rows.MapIsDrawn` | backend/internal/campaign/service/theatre.go:29-120 | a lane for each active front in order, and one for what is filed under none if anything is; each holds exactly the items on the map filed there, in rows as `LaneRowsInOrder` and `LaneRowsShow` say, with its line |
| `Rows.LaneRowsInOrder` | backend/internal/campaign/service/theatre.go:74-120 | in every lane rows with an active objective come first and withdrawn ones last of those with one, equals as they were given, and the row without an objective at the end |
| `Rows.LaneRowsShow` | backend/internal/campaign/service/theatre.go:124-213 | every row shows its objective with the obstacles and unknowns under it in order, the row without one those under no objective of the lane, with orders and progress |
| `Grounds.RowCounts` | backend/internal/campaign/service/theatre.go:144-213 | held and total ground of a row, item by item: two for an objective, its strength for an obstacle, one for an unknown and one for each order |
| `Grounds.TotalsAre` | backend/internal/campaign/service/theatre.go:144-213 | the totals are counts of the items on the map by type and status, and of the orders aimed at them |
| `Grounds.PostIs` | backend/internal/campaign/service/theatre.go:165-230 | what a post says of its item, and when an active objective is overdue |
| `StreamParts.TurnBuilder.Append` | backend/internal/infra/gemini/client.go:332-352 | a text part extends the last open part or starts one, a call closes it, in place |
| `StreamParts.ReadStream` | backend/internal/infra/gemini/client.go:273-326 | the stream loop gives the outcome of the chunks and hands on exactly the deltas, or the first failure |
| `StreamParts.ParseModelTurn` | backend/internal/infra/gemini/client.go:737-767 | the parts of a finished turn give its trimmed text, its calls and what is sent back |
| `StreamParts.SameTurnIff` | backend/internal/infra/gemini/client.go:332-352 | two streams fold to the same parts exactly when they say the same characters, calls and signatures, however either was cut |
| `StreamParts.PiecesFoldAsOne` | backend/internal/infra/gemini/client.go:332-352 | cutting a text part in two, or sending its signature behind it in an empty part, changes nothing |
| `StreamParts.FoldKeepsTextAndCalls` | backend/internal/infra/gemini/client.go:332-352 | calls keep their order and the text folded is what was handed on |
| `StreamParts.TurnIsWhatWasStreamed` | backend/internal/infra/gemini/client.go:273-352 | a turn's content is the trimmed concatenation of exactly the deltas handed on, its calls those of the stream in order |
| `Frames.ReadStream` | client/web/static/app.js:116-148 | for every way of cutting the stream into reads, the events are those of the whole text's complete frames, and the partial one is kept |
| `Frames.Drain` | client/web/static/app.js:127-147 | the inner loop delivers the complete frames of the buffer and keeps the rest |
| `Frames.DecodeFrame` | client/web/static/app.js:131-146 | a frame's last event name and its data lines joined, nothing where there is no data |
| `Frames.FirstBreak` | client/web/static/app.js:128 | the leftmost double newline, or -1 exactly when there is none |
| `Frames.CompleteAppend` | client/web/static/app.js:116-148 | what is complete stays complete as text arrives, and the rest is read on with it |
| `Frames.CompleteIsCut` | client/web/static/app.js:127-147 | the frames and the rest, with the blank lines back, are the whole text, no frame with a blank line inside |
| `Frames.CutIsUnique` | client/web/static/app.js:127-147 | there is no other such cut |
| `StreamEffects.OutcomeIs` | backend/internal/infra/gemini/client.go:273-326 | which of five ways a stream ends: the first failure, a block, nothing said, or the turn of all that was read |
| `StreamEffects.WireAppend` | backend/internal/infra/gemini/client.go:273-326 | what is read and handed on, chunk by chunk: the parts of the first candidate, each text that is not empty |
| `StreamEffects.FoldIsTight` | backend/internal/infra/gemini/client.go:332-352 | no two neighbouring parts left could still be folded, so there is one way to fold them |
| `StreamEffects.ParsedAppend` | backend/internal/infra/gemini/client.go:737-767 | what each part adds to a turn: its text to the content, its call to the calls, and what is sent back |
| `FrameEffects.DecodeIs` | client/web/static/app.js:131-146 | one event with the data lines joined by newlines and the name of the last line that gives one, trimmed, or message; none without data |
| `Calibrating.Calibrate` | backend/internal/campaign/service/calibration.go:12-52 | the loop over predictions with its counters gives the score, the number and the buckets |
| `Calibrating.BucketsDecide` | backend/internal/campaign/service/calibration.go:12-52 | the buckets reported decide the number, whether there is a score, and the score |
| `Calibrating.BucketsAddUp` | backend/internal/campaign/service/calibration.go:12-52 | the buckets reported add up to the number reported |
| `Calibrating.ScoreIsWithin` | backend/internal/campaign/service/calibration.go:12-52 | there is a score exactly when five predictions count, and it lies between 0.04 and 0.64 |
| `RecordBook.Desk.Open` | backend/internal/campaign/usecase/record.go:77-96 | a quarter is opened in planning once, under a key of the right form and a name within bounds |
| `RecordBook.Desk.Advance` | backend/internal/campaign/usecase/record.go:100-132 | a quarter moves along its allowed phases; closing seals it; every refusal leaves the tables alone |
| `RecordBook.Desk.Seal` | backend/internal/campaign/usecase/record_view.go:132-148 | closing writes the phase, the score and number as they stand, and the commendations earned |
| `RecordBook.Desk.UpdateCampaign` | backend/internal/campaign/adapters/driven/postgres/record.go:49-62 | a closed quarter is not written, and what was sealed is never among the columns written |
| `RecordBook.Desk.SetNote` | backend/internal/campaign/usecase/record.go:135-146 | a note within bounds goes on an open quarter and nowhere else |
| `RecordBook.Desk.WriteReview` | backend/internal/campaign/usecase/after_action.go:76-100 | an after-action is stored only while its quarter is in review |
| `RecordBook.Desk.Delete` | backend/internal/campaign/usecase/record.go:150-155 | only a quarter that is not closed goes; its predictions stay, unfiled |
| `RecordBook.Desk.Assign` | backend/internal/campaign/usecase/record.go:159-171 | an objective on the map goes on an open quarter; twice is once |
| `RecordBook.Desk.Unassign` | backend/internal/campaign/usecase/record.go:174-179 | an objective comes off an open quarter it is on |
| `RecordBook.Desk.PatchPrediction` | backend/internal/campaign/usecase/record_prediction.go:36-54 | refused on a closed quarter and onto one; else the patched prediction replaces the stored one; `RecordEffects.PatchIs` says when and with what |
| `RecordBook.ApplyPrediction` | backend/internal/campaign/usecase/record_prediction.go:77-151 | the field-by-field mutation, first refusal wins, equals the declared patch: kept or dropped once, chance and outcome only on a kept prediction; `RecordEffects.PatchIs` and `FiledWhereSaid` say what it comes to |
| `RecordBook.Desk.FromPreMortem` | backend/internal/campaign/usecase/record_prediction.go:170-245 | failures are filed as proposals on today's open quarter or on none, what is on the record passed over |
| `RecordBook.FindFilingCampaign` | backend/internal/campaign/usecase/record_prediction.go:193-205 | the open quarter with today's key, in whatever order the quarters are read |
| `RecordBook.GroupPredictions` | backend/internal/campaign/usecase/record_view.go:259-273 | grouping all predictions at once gives the same lists as reading quarter by quarter, and the unfiled rest |
| `RecordBook.FiledOn` | backend/internal/campaign/usecase/record_view.go:158-166 | the live predictions filed on a quarter, in order |
| `RecordBook.LiveCommendations` | backend/internal/campaign/usecase/record_view.go:216-246 | a line for each assigned objective taken or withdrawn and each kept prediction called, whatever the order |
| `RecordLaws.SealedNumberHolds` | backend/internal/campaign/usecase/record_view.go:97-148 | in every reachable state each quarter, closed or not, shows what counting its predictions afresh gives; its buckets add up to its number, with a score exactly from five on and within 0.04 and 0.64 |
| `RecordLaws.ClosedIsForEver` | backend/internal/campaign/usecase/record.go:100-190 | over any calls a closed quarter, what is filed on it, its objectives and its commendations stay as sealed |
| `RecordLaws.OnlyReviewCloses` | backend/internal/campaign/usecase/record.go:100-132 | a quarter closes in one way only: advanced from review |
| `RecordLaws.CalledLinesHold` | backend/internal/campaign/usecase/record_view.go:216-246 | a closed quarter's lines for called failures stay what its predictions, read at any moment, would earn |
| `RecordLaws.TableChecksHold` | backend/migrations/013_campaign_record.sql:8-79 | every reachable row meets the tables' own checks: closed with its moment, open without a score, chance and outcome on kept predictions only, a live failure once |
| `RecordLaws.RunKeeps` | backend/internal/campaign/usecase/record.go:77-190 | the invariant behind these holds in every reachable state |
| `FrameEffects.TrimsAgree` | client/web/static/app.js:131-146 | the browser trims a text as the program would, unless U+0085 or U+FEFF is in it |
| `Calibrating.CalibrationIs` | backend/internal/campaign/service/calibration.go:12-52 | how many count, by chance and outcome, what each misses by, and so the score |
| `RecordEffects.PatchIs` | backend/internal/campaign/usecase/record_prediction.go:36-151 | a patch takes exactly when its status, chance, outcome and filing may; the prediction then has its quarter, objective, status, chance, outcome and moment as the patch gives or clears them, its text and all other predictions as they were |
| `RecordEffects.FiledWhereSaid` | backend/internal/campaign/usecase/record_prediction.go:77-107 | a prediction filed by a patch is, if live, among those of the quarter named and of no other |
| `RecordEffects.FailuresAreFiled` | backend/internal/campaign/usecase/record_prediction.go:170-245 | each failure of a pre-mortem is on the record afterwards, what is new as a proposal on the quarter filed on, what was there as it was |
| `RecordEffects.FilingIs` | backend/internal/campaign/usecase/record_prediction.go:193-205 | the quarter filed on is the open one with today's key, none where there is none |
| `RecordEffects.AdvanceIs` | backend/internal/campaign/usecase/record.go:100-132 | planning to operations, operations to review, review back or closed, closed nowhere: taken exactly along these moves |
| `RecordEffects.SealIs` | backend/internal/campaign/usecase/record_view.go:132-246 | closing writes the score, the number and a line for each objective of the quarter taken or withdrawn and each prediction called, by name, and nothing else of the quarter |
| `RecordEffects.OpenIs` | backend/internal/campaign/usecase/record.go:77-96 | opening takes exactly where key and name fit and the key is free, and adds one planned, unwritten quarter |
| `RecordEffects.NoteIs` | backend/internal/campaign/usecase/record.go:135-146 | a note is kept, trimmed, exactly where the quarter is open and it is short enough |
| `RecordEffects.ReviewIs` | backend/internal/campaign/usecase/after_action.go:76-100 | a review is kept exactly while its quarter is in review |
| `RecordEffects.WriteIs` | backend/internal/campaign/adapters/driven/postgres/record.go:49-62 | a quarter still open is written in five columns, and a closed one in none |
| `RecordEffects.OneMoreShown` | backend/internal/campaign/usecase/record_view.go:158-166 | each live prediction is shown with its quarter, or with those filed on none, in the order there is |
| `RecordEffects.DeleteIs` | backend/internal/campaign/usecase/record.go:150-155 | an open quarter goes with its assignments, its predictions staying in place, unfiled |
| `RecordEffects.AssignIs` | backend/internal/campaign/usecase/record.go:159-179 | an objective of the map goes on an open quarter, or comes off one it is on, and the others stay |
| `Clocks.RearmWindow` | backend/internal/beast/domain/task.go:65-71 | the halving loop on a 64-bit duration is the allotment over two to the misses, rounded down, never under five minutes |
| `Clocks.LateMeansLess` | backend/internal/beast/domain/task.go:62-71 | one miss more never lengthens the clock |
| `Clocks.MoreMeansMore` | backend/internal/beast/domain/task.go:62-71 | a longer allotment never shortens it, as far as it fits 64 bits |
| `Clocks.TooLongWraps` | backend/internal/beast/domain/task.go:65-71 | one minute further the count wraps and the clock is the shortest |
| `Clocks.WindowWithin` | backend/internal/beast/domain/task.go:65-71 | the clock is at least five minutes and at most the longer of that and the allotment |
| `Clocks.SixMissesSettle` | backend/internal/beast/domain/task.go:29-71 | every allotment the board accepts is down to five minutes from the sixth miss on, and four hours are not before |
| `BoardDesk.Desk.Add` | backend/internal/beast/usecase/board.go:47-60 | a trimmed text with clamped minutes goes on the board open, with the next number; `BoardEffects.AddIs` gives its clock |
| `BoardDesk.Desk.Create` | backend/internal/beast/adapters/driven/postgres/repository.go:32-53 | a new task is numbered one past its session's last |
| `BoardDesk.Desk.Change` | backend/internal/beast/usecase/board.go:70-100 | an open task's text and clock change; a moved clock is never closer than a minute |
| `BoardDesk.Desk.Complete` | backend/internal/beast/usecase/board.go:103-145 | an open task is done and its loop asked to close; a done one stays; an abandoned one is refused |
| `BoardDesk.Desk.Abandon` | backend/internal/beast/usecase/board.go:112-122 | only an open task is struck off |
| `BoardDesk.Desk.Rearm` | backend/internal/beast/adapters/driven/postgres/repository.go:104-116 | only a task still open and still late is re-armed |
| `BoardDesk.Desk.Expire` | backend/internal/beast/usecase/board.go:181-202 | uninterrupted, exactly the session's late tasks get their new clock, and exactly those are told, in number order |
| `BoardDesk.Desk.Report` | backend/internal/beast/usecase/board.go:207-230 | the session's open tasks named become done, and every named one now done is told, in the order named |
| `BoardDesk.Desk.Apply` | backend/internal/beast/usecase/board.go:234-287 | the numbers reported done, then the orders not on the board yet, with the last loop of their number; `BoardEffects.ApplyOrders` gives their clocks |
| `BoardDesk.Desk.StandDown` | backend/internal/beast/usecase/board.go:290-305 | exactly what the session still had open is abandoned |
| `BoardLaws.RearmsAreApart` | backend/internal/beast/usecase/board.go:181-202 | whatever interleaves, two re-arms of one task that both take effect, with no setting of its clock between, were asked for at least five minutes apart |
| `BoardLaws.HitAdvances` | backend/internal/beast/adapters/driven/postgres/repository.go:104-116 | a re-arm that takes effect moves the deadline strictly on, counts one miss and touches nothing else |
| `BoardLaws.ResolvedStaysOver` | backend/internal/beast/usecase/board.go:70-305 | over any interleaving of calls and re-arms a resolved task never changes |
| `BoardLaws.ExpireInOneGo` | backend/internal/beast/usecase/board.go:181-202 | a listing followed by its conditional updates, with nothing between, renews exactly the late tasks and uses up the queue |
| `BoardLaws.ExpireClears` | backend/internal/beast/usecase/board.go:181-202 | afterwards nothing of the session is overdue at that moment and only what was overdue changed |
| `BoardLaws.ChangeKeeps` | backend/internal/beast/usecase/board.go:70-100 | a change touches its own task only and, where it sets the clock, never leaves it run out |
| `BoardLaws.NumbersAreRanks` | backend/internal/beast/adapters/driven/postgres/repository.go:32-53 | over every run the k-th task of a session is task k |
| `BoardLaws.ReportIs` | backend/internal/beast/usecase/board.go:207-230 | a report completes the session's open tasks it names and nothing else |
| `BoardLaws.ApplyAddsOnce` | backend/internal/beast/usecase/board.go:255-286 | no order added says what an open task or another added order says, and every order with a text is accounted for |
| `BoardDesk.ReadNumbers` | backend/internal/memory/usecase/beast.go:241-249 | the loop keeps the numbers an answer reports done; `BoardLaws.NumbersAreReadOnce` says which |
| `BoardLaws.NumbersAreReadOnce` | backend/internal/memory/usecase/beast.go:241-249 | the numbers read are the positive ones said, each once and in the order first said |
| `BoardLaws.ApplySquaresIff` | backend/internal/beast/usecase/board.go:246-254 | recording a turn, whatever numbers it is given, asks each loop to close once for each task it finishes exactly when they name no open task with a loop twice |
| `BoardLaws.LoopsCloseOnce` | backend/internal/beast/usecase/board.go:124-145 | over every run whose turns' numbers were read out of answers, each loop was asked to close once for each done task with it |
| `BoardEffects.AddIs` | backend/internal/beast/usecase/board.go:47-60 | an order that says something is a new open task with the minutes asked for within 1 to 240, the deadline those minutes from now, and the next number |
| `BoardEffects.ApplyOrders` | backend/internal/beast/usecase/board.go:255-286 | every task a turn adds is one of its orders, with that order's minutes and a deadline those minutes from now, and the last loop given for its number |
| `BoardEffects.LateFromItsDeadline` | backend/internal/beast/domain/task.go:53-55 | while nothing sets its clock or resolves it a task stays as it is, and is late exactly from its deadline on |
| `BoardEffects.ChangeIs` | backend/internal/beast/usecase/board.go:70-100 | when a change takes, and the words, minutes and deadline it leaves |
| `BoardEffects.CompleteIs` | backend/internal/beast/usecase/board.go:103-145 | done from now and its loop asked for, exactly from open; done stays, abandoned is refused |
| `BoardEffects.AbandonIs` | backend/internal/beast/usecase/board.go:112-122 | abandoned from now, exactly from open |
| `BoardEffects.ExpireIs` | backend/internal/beast/usecase/board.go:181-202 | exactly the session's open tasks at or past their deadline are renewed, and told |
| `BoardEffects.RenewedIs` | backend/internal/beast/domain/task.go:62-71 | a renewed clock has one miss more and runs its minutes halved once a miss, five at least, from now |
| `BoardEffects.ReportDoes` | backend/internal/beast/usecase/board.go:207-230 | the named open tasks are done from now; `ToldAre` says who is told |
| `BoardEffects.ToldAre` | backend/internal/beast/usecase/board.go:207-230 | told are, in the order named, the session's tasks named that are done |
| `BoardEffects.NothingTwice` | backend/internal/beast/usecase/board.go:255-286 | a turn adds nothing that an open task said when it began, and no two that say the same |
| `BoardEffects.NothingLeftOut` | backend/internal/beast/usecase/board.go:255-286 | an order with a text is left out only where an open task, or one added with it, says it |
| `BoardEffects.DoneIs` | backend/internal/beast/usecase/board.go:234-254 | the numbers reported done complete the session's open tasks with them, and no other task changes |
| `BoardEffects.StandDownIs` | backend/internal/beast/usecase/board.go:290-305 | all the session has open is abandoned from now, and no loop is asked for |
| `Rerank.ScoreCandidates` | backend/internal/memory/service/rerank.go:88-120 | relevance against the best, recency and kind weighed, sorted best first with ties by identifier |
| `Rerank.MmrSelect` | backend/internal/memory/service/rerank.go:195-226 | the greedy loop that removes from what remains picks the declared places; a list that all fits comes back as it is |
| `Rerank.SelectCandidates` | backend/internal/memory/service/rerank.go:129-143 | the greedy choice over the scored list, eight of them unless asked otherwise |
| `Rerank.FindBest` | backend/internal/memory/service/rerank.go:203-219 | the first remaining candidate with the largest margin of score over likeness |
| `RerankLaws.SelectionIs` | backend/internal/memory/service/rerank.go:129-226 | from a list in any order: as many places as asked for or as there are, all different; a list that all fits keeps its order, in a longer one each is the best of those left, the first of the top-scored first |
| `RerankLaws.SortedStartsWithTheFirst` | backend/internal/memory/service/rerank.go:195-226 | from a list in score order the first is chosen first |
| `RerankLaws.OrderOnlyBreaksTies` | backend/internal/memory/service/rerank.go:195-226 | in a list longer than what is asked for, with no tie at any step, every arrangement of the candidates gives the same selection in the same order |
| `RerankLaws.StepwiseIff` | backend/internal/memory/service/rerank.go:195-226 | lists of a length are always picked best-left-first exactly when longer than what is asked for, or of at most two entries in score order, one in any order |
| `RerankLaws.SwappedAreNotStepwise` | backend/internal/memory/service/rerank.go:196-198 | a list that all fits, of any length from two, that comes back the wrong way round |
| `RerankLaws.TwinsAreNotStepwise` | backend/internal/memory/service/rerank.go:196-198 | a list that all fits, of any length from three, that score order does not diversify |
| `RerankLaws.ScoringForgetsOrder` | backend/internal/memory/service/rerank.go:88-120 | the order retrieval delivered its results in does not show |
| `RerankLaws.RelevanceIsShare` | backend/internal/memory/service/rerank.go:145-168 | relevance is the share of the best, between zero and one, one for the best |
| `ModelOrder.ParseRerankOrder` | backend/internal/memory/service/llm_rerank.go:14-38 | the places a model's answer names, each once, in order of first mention |
| `ModelOrder.ParsedIs` | backend/internal/memory/service/llm_rerank.go:14-38 | a place is named exactly when its number is among the machine-sized numbers of the answer, each once and in the order first met |
| `ModelOrder.TokensAreRuns` | backend/internal/memory/service/llm_rerank.go:18-20 | the tokens are the maximal runs of digits of the answer, all of them in order, and no other list is |
| `ModelOrder.ModelOnlyBreaksTies` | backend/internal/memory/usecase/consult.go:353-362 | where more was found than is wanted and no two tie, no answer of the model changes what is selected |
| `ModelOrder.ApplyRerankOrder` | backend/internal/memory/service/llm_rerank.go:44-70 | the candidates named first and then the others as they were, for any list of numbers |
| `ModelOrder.NothingIsLost` | backend/internal/memory/service/llm_rerank.go:14-70 | for every answer the result is a permutation with the chosen first in their order and the rest rising |
| `RerankEffects.ScoresAre` | backend/internal/memory/service/rerank.go:88-193 | each candidate once, its score the weighted sum of its share of the best relevance, its recency and the boost of its kind, higher first, then the smaller identifier |
| `RerankEffects.PicksGainMost` | backend/internal/memory/service/rerank.go:129-226 | from a list longer than asked for, or than eight, each pick gains most of what is left: seven tenths of score less three tenths of the most it is like anything picked |
| `ModelEffects.OrderIsRead` | backend/internal/memory/service/llm_rerank.go:14-38 | any order of candidates, written as their numbers with anything but digits between, is read back as just that order |
| `ModelEffects.NumeralIsRead` | backend/internal/memory/service/llm_rerank.go:21-24 | a number written in tens is read as that number |
| `Supply.ReadFronts` | backend/internal/campaign/service/logistics.go:102-183 | one reading for each active front, in order |
| `Energy.ReadEnergy` | backend/internal/campaign/service/logistics.go:256-280 | the week's usable reports, today's level and whether energy is low, from the loops over them |
| `Energy.WeekIs` | backend/internal/campaign/service/logistics.go:256-269 | the week holds exactly the readable reports of the last seven days on the scale, oldest first |
| `Energy.LowMeans` | backend/internal/campaign/service/logistics.go:271-278 | energy is low exactly when two of the last three evenings reported were |
| `Energy.OrderDoesNotShow` | backend/internal/campaign/service/logistics.go:256-280 | with one report a day the order they come in does not show |
| `Supply.CountSorties` | backend/internal/campaign/service/logistics.go:127-142 | a sortie of the record counts in the window or before it, never both |
| `Supply.CountOrders` | backend/internal/campaign/service/logistics.go:145-161 | the orders aimed at the front: carried out in the record, open, due soon |
| `Supply.RecordIsWindowAndEarlier` | backend/internal/campaign/service/logistics.go:127-142 | window and earlier minutes together are the minutes of the four-week record |
| `Supply.NeverBoth` | backend/internal/campaign/service/logistics.go:181-183 | a front is never outrunning its supply and cut off at once |
| `Supply.OneOrderMore` | backend/internal/campaign/service/logistics.go:145-183 | one open order more, anywhere in the list, never turns either reading off, and on another front changes nothing |
| `Funds.FrontMoney` | backend/internal/campaign/service/logistics.go:203-252 | the purse and the stays of a front, from loops over items, stays and currencies met in any order |
| `Funds.PickCurrency` | backend/internal/campaign/service/logistics.go:230-241 | the currency carrying most, ties to the smaller name, whatever the order of the map |
| `Funds.CostsAddUp` | backend/internal/campaign/service/logistics.go:203-252 | costs in the main currency and those listed beside it add up to everything drawn on the front |
| `Funds.OrderDoesNotShow` | backend/internal/campaign/service/logistics.go:230-251 | two readings of the same costs are the same purse, so the order of the map does not show |
| `Funds.EstimatedIsPart` | backend/internal/campaign/service/logistics.go:212-244 | the unconfirmed part of the costs is never more than the costs |
| `SupplyEffects.WindowIs` | backend/internal/campaign/service/logistics.go:95-105 | the window is fourteen days, or the days since the first sortie between seven and fourteen |
| `SupplyEffects.OneSortieMore` | backend/internal/campaign/service/logistics.go:127-142 | where one sortie more counts, and with what |
| `SupplyEffects.OneMoreOrder` | backend/internal/campaign/service/logistics.go:145-161 | where one order more counts: done within 28 days, open or stale, due by the end of the seventh day from today, on the front of the last kept item with its target's identifier |
| `SupplyEffects.HoursAre` | backend/internal/campaign/service/logistics.go:163-167 | hours an order: the front's own rate between a quarter and eight from three orders done, else one sortie |
| `SupplyEffects.WeeklyIs` | backend/internal/campaign/service/logistics.go:143 | hours a week are the window's hours by the week |
| `SupplyEffects.JudgementIs` | backend/internal/campaign/service/logistics.go:168-183 | outrun exactly when minutes were flown in the window and the orders due soon but one need more than a week's hours, or the open ones but one more than those of the weeks until orders go stale; cut exactly when something was flown, but before the window only, and an order is due soon |
| `SupplyEffects.EnergyIs` | backend/internal/campaign/service/logistics.go:256-280 | the reports of seven days on the scale, the last level told today, and low exactly when two of the last three were at two or under |
| `FundsEffects.OneItemMore` | backend/internal/campaign/service/logistics.go:205-211 | an item adds its cost exactly when it is an active objective of the front with a cost in a named currency |
| `FundsEffects.OneStayMore` | backend/internal/campaign/service/logistics.go:212-227 | a stay adds its cost and the unconfirmed share of it exactly when it is on the front, not over, and costs something in a named currency; it is listed with the days until it lands |
| `FundsEffects.PurseIs` | backend/internal/campaign/service/logistics.go:229-252 | the currency of the funds, else the one carrying most, what is drawn in it, the other currencies in order, and overdrawn exactly when more is drawn than there is |
| `ItemsDesk.Desk.Create` | backend/internal/campaign/usecase/manage.go:107-132 | an item added by hand goes on the map active, placed and checked, or is refused and nothing changes |
| `ItemsDesk.Desk.Update` | backend/internal/campaign/usecase/manage.go:172-259 | the staged edit of one row, first refusal wins, editing a proposal keeping it |
| `ItemsDesk.Desk.Place` | backend/internal/campaign/usecase/manage.go:302-329 | an active front, an objective that is one, never an objective under another; the front inherited where none is given |
| `ItemsDesk.Desk.Lift` | backend/internal/campaign/usecase/manage.go:263-284 | an unknown is resolved with a non-empty answer, a proposed one kept first |
| `ItemsDesk.Desk.SendRecon` | backend/internal/campaign/usecase/manage.go:439-455 | a live unknown only, and a proposed one is kept |
| `ItemsDesk.Desk.Extract` | backend/internal/campaign/usecase/extract.go:186-250 | proposals are stored one by one, duplicates passed over, linked to active objectives or to those new in the same answer |
| `ItemsDesk.Desk.Store` | backend/internal/campaign/adapters/driven/postgres/repository.go:132-155 | the moment an item left the map is kept until it comes back, and no two live items of a type say the same |
| `ItemsLaws.RunKeeps` | backend/internal/campaign/usecase/manage.go:107-347 | over every run: only objectives are withdrawn or cost anything, none sits under another, every link leads to an objective, kind, strength and confirmation stand on obstacles only, a confirmed strength is one to three, live items say different things |
| `ItemsLaws.PatchIs` | backend/internal/campaign/usecase/manage.go:172-259 | an accepted patch changes each field to what it says and leaves every other alone; an edited proposal is kept |
| `ItemsLaws.CreationIs` | backend/internal/campaign/usecase/manage.go:107-132 | an item added by hand holds what was asked, active, on the front asked or else its objective's; nothing else changes |
| `ItemsLaws.CandidateIsFit` | backend/internal/campaign/service/parse.go:101-132 | what a model proposes carries only the fields of its type, an obstacle always a strength on the scale |
| `ItemsLaws.StatusMoves` | backend/internal/campaign/usecase/manage.go:158-297 | a call leaves every item but the one it names as it was and moves that one along the allowed moves; what it adds is active by hand and proposed from conversation; an answer changes only by lifting |
| `ItemsLaws.DoneOnlyOnceKept` | backend/internal/campaign/usecase/manage.go:158-297 | over every run an item is resolved or withdrawn only after having been active, or by a call that lifted it from a proposal with an answer |
| `ItemsLaws.AnsweredIff` | backend/internal/campaign/usecase/manage.go:245-284 | resolved unknowns keep having answers exactly as long as no update resolves an active one without an answer, asking besides only what suits an unknown |
| `ItemsLaws.ResolvingTakesIff` | backend/internal/campaign/usecase/manage.go:172-259 | an update that resolves an active unknown takes exactly when its words fit, its front and objective may be stood under, and it names nothing of obstacles or objectives |
| `ItemsLaws.UpdateCanForget` | backend/internal/campaign/usecase/manage.go:245-257 | two calls that leave an unknown resolved and never answered |
| `Commitments.Desk.Create` | backend/internal/commitments/usecase/manage.go:46-93 | a new open loop, or the live row on the listing that says the same, accepted if it was proposed |
| `Commitments.Desk.List` | backend/internal/commitments/adapters/driven/postgres/repository.go:61-94 | live rows, proposals first, then by due date, then latest touched, and at most 500 of them |
| `Commitments.Desk.SetStatus` | backend/internal/commitments/usecase/manage.go:121-146 | along the allowed moves, refused where a live loop says the same |
| `Commitments.Desk.Edit` | backend/internal/commitments/usecase/manage.go:192-211 | text, date and fingerprint, and a proposal accepted |
| `Commitments.Desk.Propose` | backend/internal/commitments/usecase/manage.go:165-188 | a proposal, or a refusal where a live loop says the same |
| `Commitments.Desk.MarkStale` | backend/internal/commitments/adapters/driven/postgres/repository.go:187-206 | exactly the open loops untouched since before the cutoff |
| `Commitments.FindLive` | backend/internal/commitments/usecase/manage.go:78-93 | the row found is on the page, live, and says the same |
| `CommitmentsLaws.DoneOnlyOnceOpen` | backend/internal/commitments/usecase/manage.go:107-146 | over every run a loop is done, or stale, only after having been open |
| `CommitmentsLaws.StatusMoves` | backend/internal/commitments/usecase/manage.go:46-211 | every call moves a loop along the allowed moves; a new one is open if created and proposed if proposed |
| `CommitmentsLaws.RunKeeps` | backend/internal/commitments/adapters/driven/postgres/repository.go:28-134 | over every run no two live loops say the same, and a moment of resolution stands exactly on done and dropped ones |
| `CommitmentsLaws.TrackingTwice` | backend/internal/commitments/usecase/manage.go:46-93 | tracking what is live gives that row, open, and adds none while fewer than 500 live rows are ahead of it or tie; with 500 ahead it is refused and changes nothing |
| `CommitmentsLaws.TrackingTwiceIff` | backend/internal/commitments/usecase/manage.go:78-93 | it succeeds whatever the listing exactly when fewer than 500 are ahead or tie, and for some listing exactly when fewer than 500 are ahead |
| `CommitmentsLaws.SmallTablesTrack` | backend/internal/commitments/usecase/manage.go:78-93 | with at most 500 live rows it is never an error |
| `CommitmentsLaws.TrackingCanFail` | backend/internal/commitments/usecase/manage.go:78-93 | after 501 proposals tracking the oldest again is refused, whatever the listing |
| `CommitmentsLaws.TrackingAgain` | backend/internal/commitments/usecase/manage.go:42-76 | creating the same text again changes nothing and gives the same row, while fewer than 500 live rows are ahead of it or tie |
| `CommitmentsLaws.NewRowIs` | backend/internal/commitments/usecase/manage.go:46-76 | a row that appears holds the trimmed text, its fingerprint, the date, the target and the kind given, or the plain kind |
| `CommitmentsLaws.EditIsWhole` | backend/internal/commitments/usecase/manage.go:192-211 | an edit is made whole or not at all, touches one row, and leaves an edited proposal open |
| `ItemsEffects.CreateIs` | backend/internal/campaign/usecase/manage.go:107-132 | an item goes on by hand exactly when its text, place and fields fit and no other on the map of its type says the same |
| `ItemsEffects.PlaceIs` | backend/internal/campaign/usecase/manage.go:302-329 | where an item may stand, and on which front it then does |
| `ItemsEffects.FieldsAre` | backend/internal/campaign/usecase/manage.go:331-347 | which kinds and strengths an obstacle may have, and what stands then |
| `ItemsEffects.MovesAre` | backend/internal/campaign/usecase/manage.go:158-164 | the moves of a status, by name |
| `ItemsEffects.EditsTakeIff` | backend/internal/campaign/usecase/manage.go:172-243 | the edits of a patch take exactly when each fits the item where it will stand, a cost in the currency said, else that of the front's funds, else dollars |
| `ItemsEffects.UpdateIs` | backend/internal/campaign/usecase/manage.go:172-259 | an update takes exactly when its edits fit, the status meant may be reached, and no other item on the map says the same; else nothing changes |
| `ItemsEffects.StoreIs` | backend/internal/campaign/adapters/driven/postgres/repository.go:132-155 | what is written: the row, with the moment it left the map, or nothing where another there says the same |
| `ItemsEffects.LiftIs` | backend/internal/campaign/usecase/manage.go:263-284 | an unknown on the map is lifted by any answer that says something, and what it is then |
| `ItemsEffects.ScoutIs` | backend/internal/campaign/usecase/manage.go:439-455 | when reconnaissance goes out, and that a proposal is kept by it |
| `ItemsEffects.CandidateIs` | backend/internal/campaign/service/parse.go:101-132 | what is read counts exactly when it has 1 to 200 characters and is sure to 0.6, and carries then what its type may |
| `ItemsEffects.FirstTwo` | backend/internal/campaign/service/parse.go:72-96 | the first two of a type that count, in order |
| `ItemsEffects.ExtractOne` | backend/internal/campaign/usecase/extract.go:186-250 | each candidate goes on as the proposal it makes, linked by number or by what it names, unless it is there already |
| `ItemsEffects.SightIs` | backend/internal/campaign/usecase/extract.go:405-460 | what the red team names is proposed under the active objective it is aimed at, opposition with a strength of two |
| `CommitmentsEffects.CreateIs` | backend/internal/commitments/usecase/manage.go:46-93 | when a loop is added and what its row holds, and what finding a live one changes |
| `CommitmentsEffects.ProposeIs` | backend/internal/commitments/usecase/manage.go:165-188 | a proposal is added exactly when its text fits and no live loop says it |
| `CommitmentsEffects.SetStatusIs` | backend/internal/commitments/usecase/manage.go:107-146 | the moves by name, what each refusal is, and the row written with its moments |
| `CommitmentsEffects.EditIs` | backend/internal/commitments/usecase/manage.go:192-211 | when an edit takes, and the whole row it leaves |
| `CommitmentsEffects.AimIs` | backend/internal/commitments/usecase/manage.go:150-156 | an order is aimed with its kind, and nothing else changes |
| `CommitmentsEffects.StaleIs` | backend/internal/commitments/adapters/driven/postgres/repository.go:187-206 | stale are exactly the open loops last touched before the cutoff, and only their status changes |
| `CommitmentsEffects.ListIs` | backend/internal/commitments/adapters/driven/postgres/repository.go:61-94 | proposals first, then by due date with the undated last, then the latest touched; all live rows or 500 |

## Left out

- Rounding: scores, lines, hours and money are exact reals, and `round2` and formatting are not modelled.
- Matching phrases in a question, likeness of two texts, recency of an entry, overlap of words, upper and lower case and fingerprints are given functions or values; tokenising and `math.Exp` behind them are not modelled.
- Calendar arithmetic: quarters, midnights and due dates come as keys and day numbers, so daylight saving is not modelled.
- JSON, the regular expressions that read answers (interrogation, red team, pre-mortem, beast flags) and the line scanner under the Gemini stream: chunks, failures, orders and candidates come as values.
- Bytes: text is a sequence of characters, so UTF-8 decoding in the browser reader and invalid encodings are not modelled.
- Library sorts are an insertion sort on the same key, stable where the program's is; text order of assigned objectives is dropped, since nothing sealed depends on it.
- Goroutines, locks, timeouts, transactions and the interleaving of a read and its later write outside re-arming: each operation is one step.
- Database rounding of moments to microseconds, deletion of items and sessions, and columns nothing here reads.
- Supply.ReadFronts: gives hours and weeks unrounded, before `round2`.
- Commitments.Desk.List: the query is read as a choice of the next row, time and again, with ties left open; the program leaves both to the database.
- StreamParts.ReadStream: a part has a text, a call and a signature; other fields of a part on the wire are not modelled.
- Markdown.ContentKeepsWords: bounds no chunk's length: the program promises none once the path and the overlap are added.
- Funds.CostsAddUp: is stated where no cost is negative; every amount is checked on its way in, and the table checks it again.
- Pages, sitreps, notes, briefs, snapshots, appraisals, the after-action's own text, and the choice of the objective a prediction is aimed at.
- HTTP handlers, wiring, authentication, settings, relocation planning, and the client outside its frame reader.
