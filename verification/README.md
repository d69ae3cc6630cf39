# LintPDF preflight cores

A verified model of the stateful and numerical cores of the LintPDF preflight service:

- the content-stream walker that turns the operators of a PDF page into paint, colour, overprint and text events;
- the circuit breaker and the 429 retry loop of the GPU inference client;
- the replay scorer that matches a fresh audit against a baseline;
- the GS1 element-string walker and the two validators built on it;
- the detected-text mask and the region filter that uses it;
- the colour quality score, the structure-tree walks, the sfnt `fsType` parser and the barcode candidates.

Code that the source writes as state changed step by step is a class or a loop here (`Walker.PageWalker`,
`Breaker.CircuitBreaker`, `RetryClient.GpuInferenceClient`, `Scoreboard.Board`, `StructTree.HeadingWalk`,
`Barcode.BarcodeCandidate`, and the methods that scan strings, bytes and arrays). Each is proved equal to a
function on values, and the laws are proved about that function for every input and every run. Three
forms differ: the operator dispatch, one `if` chain in the source, is split into a method per operator group; the
closures over outer variables are classes; and the mask's slice assignment is two nested loops.

Run `dafny verify dfyconfig.toml` to check everything.

## How the files fit together

| files | part |
|---|---|
| `Affine`, `ContentStream`, `OperatorGroups`, `Walker` | matrices, the reference interpreter, and the class that refines it |
| `GraphicsStack`, `PathGeometry`, `TextPosition`, `EventLog` | laws of whole operator sequences |
| `LatestSettings`, `DeclaredLog` | every state field and every logged event looked up among the operators, with no state carried along |
| `StandardPage`, `DecimalOperands` | which pages the walker reads as ISO 32000-2 does, and which operands it misreads |
| `Breaker`, `RetryClient`, `ReplyOutcomes` | the breaker over a full history, calls and sessions of calls, and calls in terms of the replies |
| `Overlap`, `OverlapCells`, `AuditReplay`, `GreedyMatching`, `Scoreboard`, `SetSums`, `ReplayLaws`, `ReplayTotals` | box overlap and what it measures, matching and how good it is, counting loops, conservation laws, what each counter counts |
| `ColorScore`, `ScoreOrder`, `ScoreTables` | the score and its laws, when the order of the findings matters, and the tables read backwards |
| `Gs1`, `TextMask`, `StructTree`, `Sfnt`, `Barcode` | one file per component |
| `Gs1Values`, `MaskLaws`, `TreeOrder`, `SfntBits`, `BarMetrics` | the same components in plain digits, pixels, document order, bits and painted shapes |
| `Prelude` | options, boxes, minimum and maximum, truncation |

## Where the code differs from its documentation

The model follows the code. For each difference there is a lemma that says exactly when the two agree, or what exactly
the code does instead, and a concrete input on which they differ.

- `cm` multiplies the new matrix on the right of the CTM; section 8.3.4 of ISO 32000-2 puts it on the left. On every
  page, with its `q` and `Q`, the two agree throughout exactly when each matrix commutes with the CTM in force
  (`StandardPage.MatricesAreStandardIff`); `StandardPage.ScaleThenMovePage` is a page that fails it.
- `Td`, `TD`, `T*`, `'` and `"` multiply the translation on the right of the line matrix; section 9.4.2 of the
  standard puts it on the left. `StandardPage.RunIsStandardIff` is the exact condition, `TextPosition.MoveUnderScaling`
  a page that fails it.
- `q` and `Q` leave out font, size, leading and rendering mode, which belong to the graphics state that section 8.4.2
  of the standard saves. `StandardPage.RestoresAreStandardIff` is the exact condition, `StandardPage.FontSurvivesRestore`
  a block that fails it. `StandardPage.PageIsStandardIff` puts the three rules together.
- `sc`, `scn`, `SC` and `SCN` keep only operands that are Python `int` or `float`, so decimal operands vanish, and `TJ`
  takes decimal kerning values for pieces of text. The values and the text event are right exactly when no operand is a
  decimal (`DecimalOperands.FillValuesIff`, `StrokeValuesIff`, `ShownTextIff`), the glyph count also when one printed
  digit is all there is (`GlyphCountIff`); `GreyIsLost`, `KerningIsShown` and `OneDigitIsOneGlyph` are instances.
- The breaker's documentation allows one test request when half-open. The code blocks nothing while half-open:
  `RetryClient.SecondProbeBlockedIff` says exactly when the request after a probe is stopped.
  `RetryClient.SecondProbeExample` is a session of failing calls in which it is not; behind probes answered 404 it never
  is (`RetryClient.NotFoundProbe`, `RetryClient.NotFoundProbesAllGoOut`).
- The retry constants promise about ten seconds of waiting. Any limit holds for every draw of the jitter exactly when
  the honoured headers and backoff caps of the retried attempts add up to no more (`RetryClient.SleepsWithinIff`,
  `RetryClient.TenSecondsIff`); fifteen seconds are reached (`RetryClient.FifteenSecondsReached`).
- The replay scorer's regressions are documented against disputes "in the baseline"; the code consults only the
  files read so far. `ReplayLaws.RegressionsAreDocumentedIff` is the exact condition, `ReplayLaws.OrderOfFilesMatters`
  an instance.
- The GS1 validator ignores payloads that start with `]Q3` or `]e0` and hold no separator, although the walker strips
  those markers (`Gs1.Gs1FindingIff`, `Gs1.MarkerLetsThroughIff`; `Gs1.ShortGtinIsLetThrough` is an instance). The UDI
  validator's missing-01 issue can never be raised (`Gs1.UdiFindingIff`).
- The text mask covers every point of every box exactly when the dilation is at least one pixel (`TextMask.CoverageIff`);
  below that `TextMask.EdgeIsMissed` is a box whose right edge it misses.
- Colour deductions are the same in every order of the findings exactly when no check occurs with two different
  deductions (`ScoreOrder.DeductionsIgnoreOrderIff`). The score is exactly when the heaviest and the lightest deductions of the
  checks come to the same within every category's weight, or a critical cap hides the difference
  (`ScoreOrder.ScoreIgnoresOrderIff`); `ColorScore.OrderCanMatter` is an instance.
- The sfnt parser reads the length of the OS/2 table and never uses it. `Sfnt.BuiltFontDeclares` says which bytes a
  table shorter than ten makes it read, or that it then finds nothing; `Sfnt.ShortTable` is such a font.
- LPDF_BARCODE_027 can never be raised; 011 and 012 only with thresholds below the default (`Barcode.Analyze`,
  `Barcode.DefectReachableIff`, `Barcode.ModulationReachableIff`).

## Model

| member | source | states |
|---|---|---|
| Affine.MulAssociative | src/lintpdf/codex_adapter_events.py:33-44 | the matrix product is associative |
| Affine.MulIdentity | src/lintpdf/codex_adapter_events.py:33-44 | the identity matrix is neutral on both sides |
| Affine.ApplyMul | src/lintpdf/codex_adapter_events.py:33-49 | a product sends a point through its left factor first, then through its right factor |
| Affine.ProductAppliesOldestFirst | src/lintpdf/codex_adapter_events.py:417-419 | the product accumulated by a list of `cm` matrices, of any length, sends every point through the oldest matrix first |
| Affine.OrdersAgreeIff | src/lintpdf/codex_adapter_events.py:417-419 | the code's order and the standard's give the same CTM after every prefix exactly when each new matrix commutes with the product before it |
| Affine.CommutingMatricesAgree | src/lintpdf/codex_adapter_events.py:417-419 | pairwise commuting matrices are enough for the two orders to give one product |
| Affine.ScaleThenMove | src/lintpdf/codex_adapter_events.py:417-419 | a scaling followed by a translation: both products, and that they are equal only for scale one or no movement |
| ContentStream.RunAppend | src/lintpdf/codex_adapter_events.py:247-258 | running a concatenation is running the parts in turn with the operator index carried on |
| Walker.PageWalker.constructor | src/lintpdf/codex_adapter_events.py:209-243 | a new walker is in the initial graphics, path, text and event state |
| Walker.PageWalker.Walk | src/lintpdf/codex_adapter_events.py:247-258 | the mutable walker ends in the state, stack and event log of the recursive interpreter, for every operator list |
| Walker.PageWalker.Op | src/lintpdf/codex_adapter_events.py:411-590 | the dispatch of any operator with any operands changes all fields as one interpreter step does |
| Walker.PageWalker.Save | src/lintpdf/codex_adapter_events.py:264-282 | all fourteen fields are pushed and nothing else changes |
| Walker.PageWalker.Restore | src/lintpdf/codex_adapter_events.py:284-301 | the fourteen fields become those of the top frame, which goes; an empty stack changes nothing; text, path and events are out of its frame |
| Walker.PageWalker.Paint | src/lintpdf/codex_adapter_events.py:320-345 | one event with the live state and the recorded path is appended and the path is emptied |
| Walker.PageWalker.MoveText | src/lintpdf/codex_adapter_events.py:351-353 | both text matrices become the line matrix with the translation multiplied on the right |
| Walker.PageWalker.EmitColor | src/lintpdf/codex_adapter_events.py:368-382 | one colour event with the live space and values of the chosen side |
| Walker.PageWalker.EmitText | src/lintpdf/codex_adapter_events.py:384-405 | a text event with the live state, or none outside a text object or without a positive font size |
| Walker.PageWalker.GraphicsOp | src/lintpdf/codex_adapter_events.py:417-463 | matrix, line and extended-state operators change the graphics state as specified; `gs` logs overprint exactly when the dictionary has an overprint entry |
| Walker.PageWalker.ColourOp | src/lintpdf/codex_adapter_events.py:467-500 | colour operators change one side only and log it, `cs` and `CS` silently |
| Walker.PageWalker.PathOp | src/lintpdf/codex_adapter_events.py:503-521 | construction operators record their points in device space, in order, and keep the subpath start |
| Walker.PageWalker.PaintOp | src/lintpdf/codex_adapter_events.py:524-548 | each painting operator closes, paints with its own fill, stroke and rule flags and empties the path; `n` empties it without an event |
| Walker.PageWalker.PlacementOp | src/lintpdf/codex_adapter_events.py:551-571 | text object and positioning operators change the matrices and the leading as specified |
| Walker.PageWalker.TextParameterOp | src/lintpdf/codex_adapter_events.py:557-575 | font, leading and mode operators change only their own field |
| Walker.PageWalker.ShowOp | src/lintpdf/codex_adapter_events.py:576-590 | showing operators log what they show; the quote operators move to the next line first |
| GraphicsStack.StackDepth | src/lintpdf/codex_adapter_events.py:264-286 | the depth after any run is the number of `q` minus `Q`, plus the larger of the initial depth and minus the lowest prefix count |
| GraphicsStack.LowestNetIsLowest | src/lintpdf/codex_adapter_events.py:284-287 | that lowest count is attained by a prefix and bounds every prefix |
| GraphicsStack.FramesBelowAreKept | src/lintpdf/codex_adapter_events.py:264-301 | a run that never pops below its start leaves the frames below it as they were |
| GraphicsStack.TextIgnoresStack | src/lintpdf/codex_adapter_events.py:264-301 | font, leading, mode and text matrices after a run do not depend on the graphics state or the stack |
| GraphicsStack.BalancedBlockRestores | src/lintpdf/codex_adapter_events.py:264-301 | a balanced q…Q block of any nesting restores the fourteen fields and the stack, while text state, path and events carry through |
| GraphicsStack.StateIsEffectOfLiveOperators | src/lintpdf/codex_adapter_events.py:264-301 | in every reachable state each frame, and the current graphics state, is the effect of exactly the operators still in force at its level |
| GraphicsStack.CtmIsProductOfLiveDeltas | src/lintpdf/codex_adapter_events.py:417-419 | the CTM of every reachable state is the product of the `cm` matrices still in force, applied to points oldest first |
| GraphicsStack.CtmMatchesStandardWhenCommuting | src/lintpdf/codex_adapter_events.py:417-419 | it is the standard's CTM when those matrices commute pairwise |
| StandardPage.CodeReadsAsWalker | src/lintpdf/codex_adapter_events.py:247-301 | a reader with the code's rules holds the walker's graphics state, stack and text state after every operator list |
| StandardPage.ReadingIff | src/lintpdf/codex_adapter_events.py:411-590 | for any choice among three rules of the standard, code and choice agree after every prefix exactly when each operator conforms where the code meets it |
| StandardPage.MatricesAreStandardIff | src/lintpdf/codex_adapter_events.py:417-419 | on every page, code and section 8.3.4 agree throughout exactly when each well-formed `cm` commutes with the CTM in force when it arrives |
| StandardPage.RestoresAreStandardIff | src/lintpdf/codex_adapter_events.py:264-301 | on every page, code and section 8.4.2 agree throughout exactly when each `Q` that pops finds font, size, leading and mode as its `q` saw them |
| StandardPage.ScaleThenMovePage | src/lintpdf/codex_adapter_events.py:417-419 | a doubling `cm` and a unit move put the page at 1 in the code and at 2 in the standard |
| StandardPage.RunIsStandardIff | src/lintpdf/codex_adapter_events.py:351-353 | the text state of a run agrees with section 9.4.2 after every prefix exactly when each line move has an offset that its line matrix fixes |
| StandardPage.PageIsStandardIff | src/lintpdf/codex_adapter_events.py:264-590 | with matrices, line moves and saved text parameters all as in the standard, a page reads the same throughout exactly under the three conditions together |
| StandardPage.FontSurvivesRestore | src/lintpdf/codex_adapter_events.py:284-301 | `q`, `Tf`, `Q` leaves size 20 in the code and 12 in the standard |
| PathGeometry.WalkerRecordsOutline | src/lintpdf/codex_adapter_events.py:502-521 | in every reachable state the recorded points include every control point of every segment drawn since the latest painting |
| PathGeometry.BuiltRecordsDrawn | src/lintpdf/codex_adapter_events.py:502-545 | each construction operator, and the closing step of `s`, `b` and `b*`, keeps that inclusion |
| PathGeometry.BoxIsTight | src/lintpdf/codex_adapter_events.py:310-315 | the box of recorded points is absent exactly for no points, holds all of them, and each of its sides touches one |
| PathGeometry.SegmentInsideBox | src/lintpdf/codex_adapter_events.py:310-315 | every point of a line or cubic curve lies in any box that holds its control points |
| PathGeometry.PaintBoxHoldsOutline | src/lintpdf/codex_adapter_events.py:307-345 | after any operators, a painting operator logs one event whose box is tight around its counted points and holds every point of every segment built since the latest painting |
| TextPosition.TextMatrixIsOriginPlusOffsets | src/lintpdf/codex_adapter_events.py:351-353 | in every reachable state both text matrices are the latest BT or Tm matrix shifted by the summed offsets since, and the leading is the latest one set by TL or TD |
| TextPosition.OneTextStep | src/lintpdf/codex_adapter_events.py:551-590 | what each operator does to the pair of matrices and to the leading, with the two matrices kept equal |
| TextPosition.StepIsStandardIff | src/lintpdf/codex_adapter_events.py:351-353 | a line move does what section 9.4.2 asks exactly when the linear part of the line matrix fixes its offset |
| TextPosition.TranslationOnlyTextIsStandard | src/lintpdf/codex_adapter_events.py:351-353 | pages whose `Tm` operators only translate get the standard's text state |
| TextPosition.MoveUnderScaling | src/lintpdf/codex_adapter_events.py:351-353 | a doubling `Tm` and a unit `Td` end at 1 in the code and at 2 in the standard |
| DecimalOperands.FillValuesIff | src/lintpdf/codex_adapter_events.py:495-497 | `sc` and `scn` set the fill values to the numeric operands exactly when none is a decimal |
| DecimalOperands.StrokeValuesIff | src/lintpdf/codex_adapter_events.py:498-500 | the same for `SC`, `SCN` and the stroke values |
| DecimalOperands.ValuesLost | src/lintpdf/codex_adapter_events.py:495-500 | one value is lost for each decimal |
| DecimalOperands.GreyIsLost | src/lintpdf/codex_adapter_events.py:495-497 | a decimal grey leaves no value |
| DecimalOperands.ShownTextIff | src/lintpdf/codex_adapter_events.py:578-586 | inside text, the event of a `TJ` array carries the text of its strings, and is the event those strings should give, exactly when the array holds no decimal |
| DecimalOperands.GlyphCountIff | src/lintpdf/codex_adapter_events.py:581-586 | the glyph count passed on is that of the strings exactly when there is no decimal or one printed digit is all there is |
| DecimalOperands.OneDigitIsOneGlyph | src/lintpdf/codex_adapter_events.py:581-586 | a lone one-digit decimal counts one glyph, as no text at all does |
| DecimalOperands.KerningIsShown | src/lintpdf/codex_adapter_events.py:578-586 | a decimal kerning is shown as a piece of text |
| EventLog.AtMostOneEvent | src/lintpdf/codex_adapter_events.py:411-590 | an operator logs at most one event, stamped with its page and position; a painting operator exactly its paint event, and no other operator a paint event |
| EventLog.PageLogIsOrdered | src/lintpdf/codex_adapter_events.py:252-256 | the operator indices of a page's log strictly increase and are positions of the page |
| EventLog.PaintEventsReportLiveState | src/lintpdf/codex_adapter_events.py:320-345 | the paint events of a page are, in order, one per painting operator, carrying the colours, width, cap, join and dash of the operators in force there |
| EventLog.PaintEventIs | src/lintpdf/codex_adapter_events.py:320-345 | a paint event field by field: label and flags by operator, space and values of each painted side, width, cap, join, dash, count and box |
| LatestSettings.StateIsLatestSettings | src/lintpdf/codex_adapter_events.py:417-500 | in every reachable state all fourteen fields are the latest settings among the operators in force, by operator name and operands, or the initial values |
| LatestSettings.NumberOf | src/lintpdf/codex_adapter_events.py:74-85 | a numeric operand is itself whatever its type, anything else zero |
| LatestSettings.TruncTowardZero | src/lintpdf/codex_adapter_events.py:81-85 | integers are cut off toward zero |
| LatestSettings.SlashesStripped | src/lintpdf/codex_adapter_events.py:88-89 | exactly the leading slashes of a name go |
| DeclaredLog.LogIsDeclared | src/lintpdf/codex_adapter_events.py:247-590 | for every page the log is, event by event and field by field, what the operators before each event declare: paint, colour, overprint and text |
| DeclaredLog.PathIsDeclared | src/lintpdf/codex_adapter_events.py:502-548 | in every reachable state the recorded points are exactly those of the construction operators since the latest painting, under the matrices in force at each |
| DeclaredLog.TextIsDeclared | src/lintpdf/codex_adapter_events.py:551-590 | the text state is the latest setting of each field over the whole page |
| DeclaredLog.TextBoxIs | src/lintpdf/codex_adapter_events.py:355-366 | the text box spans the text origin and the far corner through text matrix and CTM, and is absent without width or height |
| DeclaredLog.GlyphsAreWide | src/lintpdf/codex_adapter_events.py:358-360 | 0.55 em per glyph, at least one glyph; one em high, at least one unit |
| EventLog.EffectiveWidthSquared | src/lintpdf/codex_adapter_events.py:57-60 | for any square root, the effective width squared is the width squared times the mean squared axis scale, or the width squared when that scale is zero |
| EventLog.Extract | src/lintpdf/codex_adapter_events.py:160-170 | the page loop returns the logs of the readable pages, numbered from one, in order |
| EventLog.DocumentLogIsOrdered | src/lintpdf/codex_adapter_events.py:160-170 | over a document the log is strictly ordered by page and then by operator index, broken pages included |
| Breaker.CircuitBreaker.constructor | src/lintpdf/ai/gpu_client.py:81-92 | a new breaker is closed with no failures |
| Breaker.CircuitBreaker.ReadState | src/lintpdf/ai/gpu_client.py:94-101 | reading the state turns open into half-open once more than the recovery time has passed, and changes nothing else |
| Breaker.CircuitBreaker.RecordSuccess | src/lintpdf/ai/gpu_client.py:103-106 | a success makes the breaker fresh |
| Breaker.CircuitBreaker.RecordFailure | src/lintpdf/ai/gpu_client.py:108-120 | a failure prunes, appends and opens at the threshold |
| Breaker.CircuitBreaker.Check | src/lintpdf/ai/gpu_client.py:122-128 | the check passes exactly when the state read is not open |
| Breaker.PruneTwice | src/lintpdf/ai/gpu_client.py:108-111 | pruning early loses nothing that a later pruning would keep |
| Breaker.PrunedListIsWindow | src/lintpdf/ai/gpu_client.py:108-111 | over every history with a monotone clock the pruned list is the window of all failures since the latest success |
| Breaker.WindowIsFilter | src/lintpdf/ai/gpu_client.py:108-111 | that window is, for a positive window length, the full list filtered at its latest failure |
| Breaker.FailureOpensIff | src/lintpdf/ai/gpu_client.py:108-115 | a failure sets the breaker open at that time when the unpruned history has enough failures in the window, and otherwise leaves state and opening time alone |
| Breaker.HistoriesAreSound | src/lintpdf/ai/gpu_client.py:94-128 | in every reachable state: closed means below the threshold and no opening time, open means at the threshold and opened at the latest failure, half-open means opened no later than it |
| RetryClient.ParseRetryAfter | src/lintpdf/ai/gpu_client.py:131-148 | a usable header is a non-negative or infinite number; the delay is that number clamped to five seconds |
| RetryClient.GpuInferenceClient.SendWithRetry | src/lintpdf/ai/gpu_client.py:193-305 | check and loop end in the outcome, breaker state, request count, sleeps and clock of the reference call |
| RetryClient.GpuInferenceClient.RetryLoop | src/lintpdf/ai/gpu_client.py:225-305 | the loop alone, for every sequence of replies |
| RetryClient.GpuInferenceClient.Conclude | src/lintpdf/ai/gpu_client.py:235-302 | every exit that is not a retry: what is recorded on the breaker and what the caller sees |
| RetryClient.BudgetFrom | src/lintpdf/ai/gpu_client.py:225-275 | from any attempt: one request more than sleeps, at most the attempts left, every sleep within five seconds, and the total within the allowance of the retried attempts, which it reaches when every jitter draw is full |
| RetryClient.TotalAllowance | src/lintpdf/ai/gpu_client.py:41-45 | the allowance, the honoured headers and backoff caps of the retried attempts, is at most 15 s, 5.6 s with no usable Retry-After and 9.8 s with one |
| RetryClient.SleepsWithinIff | src/lintpdf/ai/gpu_client.py:131-155 | no draw of the jitter makes a call sleep beyond a limit exactly when the call is rejected or its allowance is within the limit |
| RetryClient.TenSecondsIff | src/lintpdf/ai/gpu_client.py:41-45 | the promised ten seconds hold of a call that is sent exactly when its allowance is at most ten |
| RetryClient.CallBudget | src/lintpdf/ai/gpu_client.py:221-305 | any call makes at most four requests and three sleeps within those totals, never leaves the loop at its end, and is rejected exactly when the breaker reads open, then without a request |
| RetryClient.FifteenSecondsReached | src/lintpdf/ai/gpu_client.py:41-45 | an upstream that keeps asking for more makes a call sleep the full 15 s |
| RetryClient.RecordsFrom | src/lintpdf/ai/gpu_client.py:235-302 | exactly one outcome is recorded on every exit, none for a 404 |
| RetryClient.CallIsHistory | src/lintpdf/ai/gpu_client.py:221-302 | the breaker after a call is the breaker of the history extended by what the call reports |
| ReplyOutcomes.CallIsByReplies | src/lintpdf/ai/gpu_client.py:221-302 | for every call that is sent, its last attempt is the first whose reply is no 429, or the fourth; that reply gives the outcome by its status in plain numbers, and with it requests, each sleep, the clock and the breaker |
| ReplyOutcomes.ServerErrorOpens | src/lintpdf/ai/gpu_client.py:277-298 | a third failure by 503 opens a default breaker |
| RetryClient.OpenBreakerBlocksAll | src/lintpdf/ai/gpu_client.py:94-128 | every call of a session that is checked no later than the opening time plus recovery is rejected without a request and changes nothing |
| RetryClient.ProbeAfterRecovery | src/lintpdf/ai/gpu_client.py:221-302 | a later call sends; success makes the breaker fresh, a 404 leaves it half-open, a counted failure reopens it exactly when threshold minus one earlier failures are still in the window |
| RetryClient.SecondProbeBlockedIff | src/lintpdf/ai/gpu_client.py:57-64 | after any probe the next call is rejected exactly when the probe failed, its failure filled the window, and the call comes within the recovery time |
| RetryClient.NotFoundProbe | src/lintpdf/ai/gpu_client.py:290-293 | after a probe answered 404 the next call is not rejected |
| RetryClient.NotFoundProbesAllGoOut | src/lintpdf/ai/gpu_client.py:290-293 | any number of calls answered 404 on a half-open breaker all go out and leave it half-open |
| RetryClient.SecondProbeExample | src/lintpdf/ai/gpu_client.py:63 | from a fresh client, calls failing at 0, 29, 58 and 89 seconds open the breaker and leave it half-open after the probe, and the next call is sent however soon |
| RetryClient.SessionIsHistory | src/lintpdf/ai/gpu_client.py:193-305 | a whole session of calls extends a history that stays ordered in time and never records a failure on an open breaker |
| RetryClient.SessionsAreSound | src/lintpdf/ai/gpu_client.py:81-128 | after each call of any session from a fresh client the breaker it leaves is sound and its list is the window of the failures up to that call |
| RetryClient.FinalBreakerIsLast | src/lintpdf/ai/gpu_client.py:193-305 | the breaker after a session is the one its last call reports |
| Overlap.IouLaws | scripts/replay_audit_dataset.py:76-110 | for all boxes, inside-out ones included, the overlap lies between 0 and 1, is symmetric, and is 1 of a box with itself |
| OverlapCells.OverlapIsShareOfCells | scripts/replay_audit_dataset.py:103-110 | for boxes with integer corners, neither inside the other, the overlap is the share of common cells among all cells of the two |
| OverlapCells.InsideIsPerfect | scripts/replay_audit_dataset.py:95-102 | a box inside another, give or take half a unit, overlaps it perfectly |
| OverlapCells.MovedMatchesIff | scripts/replay_audit_dataset.py:103-229 | a finding whose box moved sideways by more than half a unit is matched exactly when three times the move fit into the width |
| AuditReplay.SimilarityLaws | scripts/replay_audit_dataset.py:225 | the same range and self-match for findings with or without boxes |
| AuditReplay.BestIsBest | scripts/replay_audit_dataset.py:217-228 | the scan finds the most similar free finding of the bucket, the earliest among equals |
| AuditReplay.MatchIsMatch | scripts/replay_audit_dataset.py:217-230 | the match meets its definition: in the bucket, free, at the threshold, best, earliest; none means none reaches the threshold |
| AuditReplay.MatchIsUnique | scripts/replay_audit_dataset.py:217-230 | that definition has one solution |
| AuditReplay.AssignIsSound | scripts/replay_audit_dataset.py:212-231 | the greedy assignment is injective, pairs equal keys above the threshold, and leaves no unmatched finding a free partner above it |
| GreedyMatching.GreedyIsHalfOfAny | scripts/replay_audit_dataset.py:212-231 | no injective pairing within buckets at the threshold has more than twice as many pairs as the greedy one |
| GreedyMatching.GreedyCanBeHalf | scripts/replay_audit_dataset.py:217-231 | a bucket in which the greedy choice makes one pair and another makes two |
| Scoreboard.FindMatch | scripts/replay_audit_dataset.py:216-230 | the inner loop over one bucket finds the match over the whole file |
| Scoreboard.Board.Credit | scripts/replay_audit_dataset.py:190-205 | one counter goes up by one in the aggregate and for its rule |
| Scoreboard.Board.CreditBaseline | scripts/replay_audit_dataset.py:198-205 | the baseline is counted, and bucketed so that a key lists exactly its findings in order |
| Scoreboard.Board.CreditFresh | scripts/replay_audit_dataset.py:212-241 | the matching loop counts the fresh findings and returns the set of taken baseline findings |
| Scoreboard.Board.CreditRemoved | scripts/replay_audit_dataset.py:243-252 | the findings nobody took are counted by verdict |
| Scoreboard.Score | scripts/replay_audit_dataset.py:185-254 | the pass returns the seven counters of the ledger, overall and for exactly the rules that occur |
| ReplayLaws.AggregateIsSumOfRules | scripts/replay_audit_dataset.py:168-254 | each of the seven aggregate counters is the sum of its per-rule counters |
| ReplayTotals.CountersAreSums | scripts/replay_audit_dataset.py:168-254 | six of the counters as sums over the files: findings, disputed ones, fresh ones, disputed ones taken, disputed and confirmed ones not taken |
| ReplayLaws.DisputedAreConserved | scripts/replay_audit_dataset.py:229-252 | fresh disputed plus removed disputed is the disputed baseline count of the covered files, overall and per rule |
| ReplayLaws.FreshDisputedCount | scripts/replay_audit_dataset.py:229-234 | fresh disputed counts the disputed baseline findings taken |
| ReplayLaws.RemovedCount | scripts/replay_audit_dataset.py:243-252 | removed plus taken is the baseline, for disputed and for confirmed findings |
| ReplayLaws.SelfAssign | scripts/replay_audit_dataset.py:212-231 | against an equal copy the k-th fresh finding takes the k-th baseline finding |
| ReplayLaws.SelfReplayIsIdentity | scripts/replay_audit_dataset.py:185-254 | replaying a dataset on itself gives no regressions, nothing removed, and the baseline's totals, overall and per rule |
| ReplayLaws.RegressionsAreCounted | scripts/replay_audit_dataset.py:235-241 | regressions are the unmatched fresh findings whose rule is disputed in the files read so far |
| ReplayLaws.RegressionsAreDocumentedIff | scripts/replay_audit_dataset.py:29-34 | never more than the documented number, and equal to it exactly when no unmatched finding's rule is first disputed in a later file |
| ReplayLaws.OrderOfFilesMatters | scripts/replay_audit_dataset.py:239 | two files whose order changes the count from none to one |
| Gs1.SchemaKeys | src/lintpdf/analyzers/barcode_validation.py:46-71 | the identifiers of the schema, given by their digits |
| Gs1.PrefixFree | src/lintpdf/analyzers/barcode_validation.py:46-71 | no identifier begins another |
| Gs1.SchemaIsConsistent | src/lintpdf/analyzers/barcode_validation.py:46-71 | a matching value has the fixed length of its entry, or holds no separator |
| Gs1.AiLength | src/lintpdf/analyzers/barcode_validation.py:97-104 | a length found lies between two and four and its slice is an identifier |
| Gs1.ReadValue | src/lintpdf/analyzers/barcode_validation.py:108-119 | the value read and the position after it and its separator; the position does not go back inside the text |
| Gs1.Walk | src/lintpdf/analyzers/barcode_validation.py:88-124 | the position loop returns the elements of the stripped payload |
| Gs1.AiIsFound | src/lintpdf/analyzers/barcode_validation.py:96-104 | an identifier at the front of a text is found whatever follows it, so the order of lengths is immaterial |
| Gs1.ValueIsFound | src/lintpdf/analyzers/barcode_validation.py:108-119 | a valid value is read back exactly, before its separator, at the end, or by length |
| Gs1.RoundTrip | src/lintpdf/analyzers/barcode_validation.py:77-124 | printing any valid elements behind any marker, with or without the last separator, and walking the text returns exactly those elements and no issue |
| Gs1.WalkIsLossless | src/lintpdf/analyzers/barcode_validation.py:88-124 | on any text the emitted identifiers, values and separators rebuild it up to one trailing separator |
| Gs1.NoIssuesIffWellFormed | src/lintpdf/analyzers/barcode_validation.py:88-124 | the walk raises no issue exactly on the texts the printer can write |
| Gs1.CleanWalkIsPrinted | src/lintpdf/analyzers/barcode_validation.py:88-124 | a walk without issues is inverted by printing what it emitted |
| Gs1.Gs1FindingIff | src/lintpdf/analyzers/barcode_validation.py:127-145 | the GS1 finding appears exactly for payloads that pass the gate and are not well formed |
| Gs1.MarkerLetsThroughIff | src/lintpdf/analyzers/barcode_validation.py:138-140 | behind `]Q3` or `]e0` a malformed element string is reported exactly when it holds a separator |
| Gs1.ShortGtinIsLetThrough | src/lintpdf/analyzers/barcode_validation.py:138-140 | a two-digit GTIN is let through behind `]Q3` and reported behind `]C1` |
| Gs1Values.ValidIsValue | src/lintpdf/analyzers/barcode_validation.py:46-71 | which texts are values of which identifier, by digits and lengths |
| Gs1Values.CleanIffElementString | src/lintpdf/analyzers/barcode_validation.py:88-124 | the walk raises no issue exactly on such elements written out with their separators |
| Gs1Values.WrittenIsWalkedBack | src/lintpdf/analyzers/barcode_validation.py:77-124 | and gives them back, behind any marker |
| Gs1Values.FindingIff | src/lintpdf/analyzers/barcode_validation.py:127-145 | the finding appears exactly for payloads that start with 01 or ]C1 or hold a separator and are no element string behind their marker |
| Gs1Values.WalkVerdicts | src/lintpdf/analyzers/barcode_validation.py:105-123 | no issue for a value, a format violation for another text behind a known identifier, unknown for a text that starts with none |
| Gs1Values.ExpiryDateIsFine | src/lintpdf/analyzers/barcode_validation.py:56 | a six-digit expiry date is not reported |
| Gs1.UdiFindingIff | src/lintpdf/analyzers/barcode_validation.py:168-198 | the UDI finding appears exactly when 01 is seen and none of 17, 10 and 21 is, with that one issue |
| Gs1.UdiOfPrinted | src/lintpdf/analyzers/barcode_validation.py:168-198 | for printed elements the same in terms of the identifiers printed |
| TextMask.FillRect | src/lintpdf/ai/text_mask.py:110 | a slice assignment marks exactly the cells of its rectangle in addition |
| TextMask.BuildTextMask | src/lintpdf/ai/text_mask.py:66-113 | a mask is returned exactly when something is marked; a cell is 255 exactly when some region's clipped, dilated rectangle covers it, else 0 |
| TextMask.AxisCovered | src/lintpdf/ai/text_mask.py:104-107 | on one axis the cell of an in-page coordinate of an interval, far edge included, falls in the dilated, clipped pixel interval |
| TextMask.CoverageIff | src/lintpdf/ai/text_mask.py:104-107 | the cell of every point of every box on the closed page lies in its rectangle, for all pages and sizes, exactly when the dilation is at least one |
| TextMask.EdgeIsMissed | src/lintpdf/ai/text_mask.py:104-107 | a box whose right edge is missed at any smaller dilation |
| TextMask.DetectedTextIsMarked | src/lintpdf/ai/text_mask.py:89-111 | in a page's mask the cell of every point of every detected box on the closed page is marked |
| TextMask.RasterInvertsScale | src/lintpdf/ai/text_region_pass.py:97-115 | rasterising the converted box of an integer pixel box gives that box, dilated and clipped |
| TextMask.RasterCoversScaled | src/lintpdf/ai/text_region_pass.py:97-115 | for any pixel box, degenerate or with absent corners, the pixel of every point of the closed image inside it is covered |
| TextMask.FilterByTextMask | src/lintpdf/ai/text_mask.py:169-193 | the filter keeps exactly the regions off the text, in order, and kept plus dropped is the input length |
| TextMask.CentreOnTextIsDropped | src/lintpdf/ai/text_mask.py:187-191 | a region is dropped when its centre, clamped into the image, is a point the page puts inside a detected box |
| MaskLaws.GridIsNearest | src/lintpdf/ai/text_mask.py:82-83 | the mask is as large as the page at the resolution, to the nearest pixel, and at least one pixel |
| MaskLaws.RoundIsNearest | src/lintpdf/ai/text_mask.py:82-83 | rounding goes to a nearest integer, of two to the even one |
| MaskLaws.MarginIsTenPixels | src/lintpdf/ai/text_mask.py:169-193 | with one detected box a region is dropped exactly when its clamped centre is no more than ten pixels outside |
| MaskLaws.DegenerateBoxes | src/lintpdf/ai/text_region_pass.py:97-114 | a box without extent gets a thousandth of a point; without an image size numbers are kept |
| MaskLaws.AbsentCorners | src/lintpdf/ai/text_region_pass.py:102-105 | absent near corners are zero, absent far ones the near ones |
| ColorScore.ComputeScore | src/lintpdf/color_score.py:137-247 | score, grade, breakdown, details and cap are those of the colour findings, for every list and any five weights |
| ColorScore.Deduct | src/lintpdf/color_score.py:174-222 | the loop charges each check once, by its first colour finding, and keeps the lowest cap hit |
| ColorScore.PrefixesAreExclusive | src/lintpdf/color_score.py:102-121 | an identifier fits at most one prefix, so the table's order is immaterial |
| ColorScore.ScoreInRange | src/lintpdf/color_score.py:231-239 | the score lies between 0 and 100 |
| ColorScore.ScoreIsCappedSum | src/lintpdf/color_score.py:224-239 | for non-negative weights that sum to 100 the score is the sum of the clamped category scores, lowered to the cap when one was hit |
| ColorScore.CapIsLowestHit | src/lintpdf/color_score.py:185-189 | the cap is the least of the caps of the critical errors present, and absent without any |
| ColorScore.DetailsAddUp | src/lintpdf/color_score.py:212-222 | the listed deductions of a category add up to what it is charged |
| ColorScore.AppendingNeverRaises | src/lintpdf/color_score.py:137-247 | one more finding of any kind never raises the score |
| ColorScore.ExtendingNeverRaises | src/lintpdf/color_score.py:137-247 | nor does any number of them |
| ColorScore.DeductedIsSetSum | src/lintpdf/color_score.py:180-213 | with one deduction per check, a category is charged the sum over the set of checks seen |
| ColorScore.ScoreIgnoresOrder | src/lintpdf/color_score.py:137-247 | then lists with the same findings, in any order or multiplicity, have the same score |
| ColorScore.SingleSeverityIsEnough | src/lintpdf/color_score.py:197-210 | a single severity per check, or only errors and warnings, is enough for that |
| ColorScore.OrderCanMatter | src/lintpdf/color_score.py:191-195 | a check that occurs as error and as advisory scores 90 in one order and 100 in the other |
| ScoreTables.ChecksByDeduction | src/lintpdf/color_score.py:45-99 | for each deduction the checks that make it, and at which severities |
| ScoreTables.ErrorsByCap | src/lintpdf/color_score.py:34-43 | for each cap the errors that hit it |
| ScoreTables.ChecksByCategory | src/lintpdf/color_score.py:102-121 | the checks that count, and for each category the prefixes of its checks |
| ScoreTables.DefaultWeights | src/lintpdf/color_score.py:151-158 | the default weights |
| ScoreTables.GradesByScore | src/lintpdf/color_score.py:124-134 | each grade by its range of scores |
| ScoreTables.DetailsAreCharged | src/lintpdf/color_score.py:180-222 | the details are exactly those of the first findings of their checks that deduct something |
| ScoreOrder.DeductionsIgnoreOrderIff | src/lintpdf/color_score.py:180-213 | every order of some findings, and every list of the same ones, is charged alike in each category exactly when no check has two different deductions among them |
| ScoreOrder.FrontDecides | src/lintpdf/color_score.py:191-213 | a check is charged by the finding in front, the other checks as if it were not there |
| ScoreOrder.DeductedIsFirstSum | src/lintpdf/color_score.py:180-213 | a category's charge is the sum over the checks seen of what the first finding of each deducts |
| ScoreOrder.ScoreBetween | src/lintpdf/color_score.py:137-247 | every list of the same findings scores between the order with errors and warnings first and the one with them last |
| ScoreOrder.ExtremeOrdersDecide | src/lintpdf/color_score.py:137-247 | for any weights, every order has one score exactly when those two orders do |
| ScoreOrder.ExtremeOrdersCharge | src/lintpdf/color_score.py:180-213 | those two orders charge each category the sum of its checks' heaviest and of their lightest deductions |
| ScoreOrder.ScoreIgnoresOrderIff | src/lintpdf/color_score.py:224-239 | for non-negative weights that sum to 100, every order has one score exactly when heaviest and lightest charges agree within each weight, or a cap is hit that is no higher than what the heaviest leave |
| StructTree.HeadingWalk.Walk | src/lintpdf/analyzers/accessibility.py:347-368 | the recursive closure's variables end as the left fold over the tree's preorder list of heading levels |
| StructTree.HeadingWalkReports | src/lintpdf/analyzers/accessibility.py:341-362 | the count is the number of adjacent jumps of more than one after a positive level, and the worst pair is the first with the widest gap |
| StructTree.FoldAppend | src/lintpdf/analyzers/accessibility.py:347-368 | walking siblings in turn is walking their levels in one list |
| TreeOrder.TreeIsPreorder | src/lintpdf/analyzers/accessibility.py:347-368 | the walk's levels are those of a worklist that takes the first element and puts its kids in front |
| TreeOrder.HeadingTypes | src/lintpdf/analyzers/accessibility.py:351-354 | a heading of level d is an element whose type is H and that digit |
| TreeOrder.TypeNames | src/lintpdf/analyzers/accessibility.py:351-352 | the type, or the kind when the type is empty, without slashes |
| StructTree.CollectTypes | src/lintpdf/analyzers/accessibility.py:425-448 | the set returned is exactly the string types found no deeper than one hundred levels |
| Sfnt.FormatFlags | src/lintpdf/analyzers/_font_sfnt.py:128-140 | the list is the labels of the set bits in table order; a label is on it exactly when its bit is set, no other text is, and it is empty exactly when no labelled bit is set |
| Sfnt.LabelsInOrder | src/lintpdf/analyzers/_font_sfnt.py:136-140 | those labels are each the label of a set bit, and none is listed twice |
| Sfnt.ParseFsType | src/lintpdf/analyzers/_font_sfnt.py:57-125 | on every byte string: a result exactly when the directory is complete and its first OS/2 record leads to ten bytes, then the big-endian value at offset eight, with exactly the labels of its set bits |
| SfntBits.LabelsInNumbers | src/lintpdf/analyzers/_font_sfnt.py:23-29 | each label by the remainders that set its bit |
| SfntBits.RestrictedInNumbers | src/lintpdf/analyzers/_font_sfnt.py:120-122 | some restriction bit is set exactly when the value modulo sixteen is two or more |
| SfntBits.HighByteFirst | src/lintpdf/analyzers/_font_sfnt.py:79-112 | numbers are read high byte first |
| SfntBits.KnownVersions | src/lintpdf/analyzers/_font_sfnt.py:76-98 | the four file versions and the OS/2 tag spelled out |
| Sfnt.BuiltFontDeclares | src/lintpdf/analyzers/_font_sfnt.py:70-112 | any font file laid out as its directory says declares the fsType stored in its first OS/2 table when that has ten bytes; a shorter one makes the parser read on behind the table, or find nothing at the end of the file |
| Sfnt.BuiltDeclaresIff | src/lintpdf/analyzers/_font_sfnt.py:81-112 | a file with any directory declares exactly the two bytes eight after the offset of its first OS/2 record, when it has them |
| Sfnt.ShortTable | src/lintpdf/analyzers/_font_sfnt.py:97-112 | an eight-byte OS/2 table whose file declares the two bytes behind it, or nothing without them |
| Sfnt.PackedIsLaidOut | src/lintpdf/analyzers/_font_sfnt.py:81-97 | tables written one after another behind the directory are laid out as it says |
| Sfnt.DirectoryRecord | src/lintpdf/analyzers/_font_sfnt.py:81-97 | each record of a built directory stands in its place |
| Barcode.BarcodeCandidate.AddStroke | src/lintpdf/analyzers/barcode.py:369-379 | a candidate's count, widths and bounds stay those of the bars added |
| Barcode.BoundsAreUnion | src/lintpdf/analyzers/barcode.py:369-389 | the bounds are the least box over the bars' boxes, absent exactly when no bar has one |
| Barcode.Collect | src/lintpdf/analyzers/barcode.py:506-526 | every page with bars gets one candidate of its own that shows exactly that page's bars |
| Barcode.OverallIsMinOfTwo | src/lintpdf/analyzers/barcode.py:445-450 | the overall score is the smaller of contrast and modulation, between 0 and 4, for any square root |
| Barcode.OverallGradeIsWorse | src/lintpdf/analyzers/barcode.py:334-352 | the overall grade is the worse of the grades of contrast and modulation |
| BarMetrics.FilledRectangles | src/lintpdf/analyzers/barcode.py:517-526 | the page that fills one rectangle has a bar exactly when the rectangle is narrower than the limit and more than three times as high as wide, from whichever corner it is drawn |
| BarMetrics.StrokesAreBars | src/lintpdf/analyzers/barcode.py:512-516 | a stroke is a bar, as wide as its line, exactly when the line is thinner than the limit |
| BarMetrics.ContrastOfTwo | src/lintpdf/analyzers/barcode.py:420-429 | two bars have contrast four less four times their difference over their sum, not below zero |
| BarMetrics.ModulationByCount | src/lintpdf/analyzers/barcode.py:431-443 | each modulation by its range of stroke counts |
| BarMetrics.GradesByScore | src/lintpdf/analyzers/barcode.py:334-352 | each letter by its range of scores |
| BarMetrics.DecodabilityIsHalfway | src/lintpdf/analyzers/barcode.py:445-447 | decodability lies halfway between contrast and modulation |
| Barcode.BarcodePages | src/lintpdf/analyzers/barcode.py:528-549 | the candidates kept are exactly those of the map with enough strokes, one per page, in page order |
| Barcode.CountPages | src/lintpdf/analyzers/barcode.py:1194-1197 | the dictionary counts the candidates of each page |
| Barcode.Quality | src/lintpdf/analyzers/barcode.py:925-962 | 011 and 012 are raised exactly for pages with such a candidate, 027 exactly for pages counted more than once |
| Barcode.Analyze | src/lintpdf/analyzers/barcode.py:506-554 | from any events and thresholds, 011 and 012 appear exactly on the barcode pages whose bars deserve them, and 027 never |
| Barcode.DefectReachableIff | src/lintpdf/analyzers/barcode.py:925-930 | some event stream raises 011 exactly when bars can exist and the threshold is below fifteen |
| Barcode.ModulationReachableIff | src/lintpdf/analyzers/barcode.py:950-951 | some event stream raises 012 exactly when bars can exist and the threshold is below twenty |

## Left out

- IEEE rounding, NaN and infinities: coordinates and times are reals, colour scores integer tenths of a point; an infinite Retry-After is a case of its own, a NaN one is not modelled.
- ColorScore.ComputeScore: takes five weights in tenths; weight dictionaries with other keys, missing keys or finer fractions than a tenth are not part of this model.
- Thread interleavings on a shared client: calls are sequential, with arbitrary gaps and response times and a clock that never runs backwards.
- HTTP itself, the exceptions outside the three the client catches, and the conversion of a Retry-After text to a number: replies and headers are inputs, classified as the code classifies them.
- PDF parsing and resource extraction (`_extgstate`, `_cs_to_spot`): pages arrive as operators with typed operands and resource tables, or as broken.
- `str`, `_str_len`, `_str_val` and the square root are parameters; where the square root matters its defining property is required.
- The per-operator exception paths of the walker: operands are already typed, and conversions that would raise are not part of this model.
- Finding messages, the order of findings within one barcode pass, and rounding in details.
- Object identity in the replay matcher: the loader makes one object per finding, so a position in the file's list stands for it.
- JSON loading, command line and scoreboard writing of the replay script.
- Validation of EU product passports, GS1 check digits and dates: not done by the modelled walker or a single pattern test.
- The digit class of the GS1 patterns is a parameter that accepts at least 0 to 9 and not the separator; heading levels are the ASCII H0 to H9 only.
- `text_density_ratio`, the polygon part of `_scale_bbox` and `should_run_for_page`: sums and thresholds.
- `_check_table_structure`, `_bbox_distance`, `_bbox_contains` and the other barcode findings: one branch settles each.
- The infinite starting bounds of a barcode candidate are an absent box.
- Breaker.HistoriesAreSound: requires that no failure is recorded on an open breaker; RetryClient.SessionIsHistory shows that sequential calls never do it.
- GraphicsStack.CtmMatchesStandardWhenCommuting: a sufficient condition only; StandardPage.MatricesAreStandardIff is the exact one.
- StructTree.CollectTypes: the source starts at a dictionary, so the root here is one.
