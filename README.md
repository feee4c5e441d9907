# fm-portfolio rule engines in Dafny

A verified model of the logic behind the fm-portfolio site: a Windows 3.1 styled
desktop written in React. The model covers:

- **the desktop's window registry** (`useWindowManager`);
- **the frame each window draws** (`Win31Window`);
- **the rules of four desktop apps**: Klondike Solitaire, Minesweeper, Paint's pixel
  logic, and Calculator's entry state;
- **Notepad's editing commands**;
- **the Clock's seven-segment face**;
- **the text-scramble animations of the entrance and confirm screens.**

Each source file has its own module:

| module | source |
|---|---|
| `WindowManager` | `useWindowManager.ts` |
| `Win31Window` | `Win31Window.tsx` |
| `Solitaire` | `Solitaire.tsx` |
| `Minesweeper` | `Minesweeper.tsx` |
| `Paint` | `Paint.tsx` |
| `Calculator` | `Calculator.tsx` |
| `Notepad` | `Notepad.tsx` |
| `Clock` | `Clock.tsx` |
| `ScrambleReveal` | `useScrambleReveal` in `portfolio/page.tsx` |
| `LanguageScramble` | `useLanguageScramble.ts` |
| `MainEntrance` | `useMainEntrance.ts` |
| `ConfirmScreen` | `useConfirmScreen.ts` |

Shared modules:

- `Wrappers` defines `Option`, for `null` and `undefined`.
- `Decimal` is decimal text: `toString`, `padStart` and parsing back.
- `Scramble` is one frame of a scramble: the locked prefix, the characters passed through, and glyphs elsewhere.
- `AppTypes` holds the application's phase, language and confirm-option unions.

How the program is modelled:

- **React state becomes class fields.** A component's or hook's state is the fields of a class. Each event handler is a method with a `modifies` clause. Its `ensures` gives the whole new state.
- **Updaters become functions.** An updater passed to a `setState` call is a function from the old state to the new one, and lemmas state what it preserves.
- **Timers become methods.** Each timer or interval callback is a method that the environment calls once the callback is due.
- **Randomness becomes an oracle.** Every random choice is a parameter:
  - the shuffle's swap indices;
  - the mine coordinates;
  - the glyph draws;
  - the lock jitter;
  - the popup delay.
- **Loops stay loops.** Loops in the source are `while` loops with invariants:
  - the deal;
  - mine placement and the neighbour counts;
  - the reveal's neighbour loops;
  - the flood fill over its explicit stack;
  - the scramble frames.

## Model

| member | source | states |
|---|---|---|
| `Decimal.ToDecimal` | src/app/portfolio/components/apps/Notepad.tsx:157 | a number's decimal text is non-empty digits, one digit exactly below 10, with no leading zero |
| `Decimal.DecimalRoundTrip` | src/app/portfolio/components/apps/Notepad.tsx:157 | reading a number's decimal text back gives the number |
| `Decimal.DecimalInjective` | src/app/portfolio/components/apps/Notepad.tsx:157 | different numbers are written differently |
| `Decimal.PadStart` | src/app/portfolio/components/apps/Clock.tsx:148 | `padStart` reaches the width (or keeps a longer text), ends with the text, and is the pad character before it |
| `Clock.SegmentsFor` | src/app/portfolio/components/apps/Clock.tsx:23 | a digit lights seven flags: its table entry when it has one, the '0' pattern otherwise |
| `Clock.SegmentsTable` | src/app/portfolio/components/apps/Clock.tsx:8-19 | every table entry has seven flags, '8' lights all of them and '1' only segments b and c |
| `Clock.DigitHasEntry` | src/app/portfolio/components/apps/Clock.tsx:8-19 | each of the ten decimal digits has its own entry |
| `Clock.FormatDigit` | src/app/portfolio/components/apps/Clock.tsx:148 | `formatDigit` writes at least two characters, all digits |
| `Clock.FormatDigitTwoPlaces` | src/app/portfolio/components/apps/Clock.tsx:148 | for 0..99 the text has exactly two digits and reads back as the number, with a leading '0' below 10 |
| `Clock.DigitalFace` | src/app/portfolio/components/apps/Clock.tsx:281-290 | the digital face is six digits of seven segments each |
| `Clock.DigitalFaceUsesTable` | src/app/portfolio/components/apps/Clock.tsx:281-290 | for any time of day each of the six digits shows its own table entry, never the fallback |
| `Clock.ToggleMode` | src/app/portfolio/components/apps/Clock.tsx:166 | the mode button always changes the mode |
| `Clock.ToggleModeInvolution` | src/app/portfolio/components/apps/Clock.tsx:166 | two clicks on the mode button give the mode back |
| `Clock.ButtonLabel` | src/app/portfolio/components/apps/Clock.tsx:179 | the button is labelled with the mode a click switches to, never the current one |
| `Clock.Tick` | src/app/portfolio/components/apps/Clock.tsx:116-123 | every 500 ms tick flips the colon and keeps the mode |
| `Clock.ClickMode` | src/app/portfolio/components/apps/Clock.tsx:166 | a click toggles the mode and keeps the colon |
| `Scramble.Glyph` | src/app/portfolio/page.tsx:28 | a random draw always picks a glyph of the alphabet |
| `Scramble.AlphabetFor` | src/app/hooks/useLanguageScramble.ts:50 | the glyphs are one of the two alphabets, non-empty when both are, and (when they differ) the Japanese ones exactly for the Japanese interface; the confirm screen and the entrance choose the same way |
| `Scramble.LockedCountBounds` | src/app/portfolio/page.tsx:19 | nothing is locked at frame 0, at most the whole text before the last frame, and all of it from the last frame on |
| `Scramble.LockedCountMonotone` | src/app/portfolio/page.tsx:18-19 | the locked prefix never shrinks as the frame advances |
| `Scramble.Frame` | src/app/portfolio/page.tsx:21-30 | a frame has the target's length, equals the target on the locked prefix, keeps the pass-through characters and shows glyphs elsewhere |
| `Scramble.FrameFullyLocked` | src/app/portfolio/page.tsx:33-36 | once every position is locked the frame is the target itself, whatever the draws |
| `Scramble.Render` | src/app/hooks/useLanguageScramble.ts:86-99 | the character-by-character loop builds exactly that frame |
| `ScrambleReveal.MaxFrames` | src/app/portfolio/page.tsx:15 | the frame count is the larger of twice the length and 20 |
| `ScrambleReveal.Reveal.constructor` | src/app/portfolio/page.tsx:8 | before any trigger nothing is displayed and no interval runs |
| `ScrambleReveal.Reveal.Effect` | src/app/portfolio/page.tsx:11-14 | with the trigger off no interval runs and the display is kept; with it on a fresh run starts at frame 0 |
| `ScrambleReveal.Reveal.Tick` | src/app/portfolio/page.tsx:17-37 | each tick advances the frame and shows its scramble frame; at the last frame the text itself shows and ticking stops |
| `ScrambleReveal.TickShows` | src/app/portfolio/page.tsx:18-31 | a tick's output has the text's length, the text on the (growing) locked prefix, its spaces, and glyphs elsewhere |
| `LanguageScramble.Fields` | src/app/hooks/useLanguageScramble.ts:101-114 | the twelve fields of a tick each keep their target's length |
| `LanguageScramble.FieldsShow` | src/app/hooks/useLanguageScramble.ts:86-99 | each field shows its target on the locked prefix and keeps every space and line break |
| `LanguageScramble.RenderFields` | src/app/hooks/useLanguageScramble.ts:101-114 | the `setScrambled` call scrambles every field with the same frame number |
| `LanguageScramble.Hook.constructor` | src/app/hooks/useLanguageScramble.ts:52-54 | the hook starts with empty fields, no scramble and the current language as the previous one |
| `LanguageScramble.Hook.Cleanup` | src/app/hooks/useLanguageScramble.ts:124-128 | cleanup stops the interval, empties every field and lowers the flag |
| `LanguageScramble.Hook.Effect` | src/app/hooks/useLanguageScramble.ts:56-61 | a scramble starts exactly on the main phase with a changed language, and then records the new language |
| `LanguageScramble.Hook.Tick` | src/app/hooks/useLanguageScramble.ts:82-122 | a tick scrambles all fields at the next frame; at frame 18 the fields are emptied and the flag is lowered |
| `MainEntrance.TimingsFor` | src/app/hooks/useMainEntrance.ts:70-72 | skip mode uses 300/800/1500/2000/12000 ms, normal mode 800/1500/3500/5000 ms and a popup in [18000, 22000) ms |
| `MainEntrance.TimingsOrdered` | src/app/hooks/useMainEntrance.ts:70-72 | the five steps come strictly in order, and skip mode is faster at every step |
| `MainEntrance.LockTargets` | src/app/hooks/useMainEntrance.ts:85-90 | position i of "superself" locks at frame (i+1)·m plus its jitter |
| `MainEntrance.TargetsBounded` | src/app/hooks/useMainEntrance.ts:85-90 | every lock target lies between frame 4 and frame 9m+3 |
| `MainEntrance.TitleFrame` | src/app/hooks/useMainEntrance.ts:101-112 | the title frame has nine characters: the title's where locked, glyphs elsewhere |
| `MainEntrance.TitleFrameAllLocked` | src/app/hooks/useMainEntrance.ts:115-116 | with every position locked the frame is "superself" |
| `MainEntrance.LockAndRender` | src/app/hooks/useMainEntrance.ts:98-112 | the loop sets each lock flag exactly when its target is reached, builds the title frame, and reports whether all nine are locked |
| `MainEntrance.Entrance.constructor` | src/app/hooks/useMainEntrance.ts:35-41 | everything starts hidden, with no timer pending and no scramble |
| `MainEntrance.Entrance.ResetEntranceState` | src/app/hooks/useMainEntrance.ts:43-50 | hides the frame, prompt, title, cursor, footer and burger, and touches nothing else |
| `MainEntrance.Entrance.HandleReplayEntrance` | src/app/hooks/useMainEntrance.ts:52-60 | marks a replay, resets the visible state and schedules the replay's end |
| `MainEntrance.Entrance.FireReplay` | src/app/hooks/useMainEntrance.ts:57-59 | the 150 ms timer ends the replay |
| `MainEntrance.Entrance.Effect` | src/app/hooks/useMainEntrance.ts:63-149 | a run clears the previous timers and scramble, and schedules the five steps only on the main phase |
| `MainEntrance.Entrance.FireFrame` | src/app/hooks/useMainEntrance.ts:75-77 | step 1 shows the frame |
| `MainEntrance.Entrance.FireTitle` | src/app/hooks/useMainEntrance.ts:80-91 | step 2 shows the prompt and cursor, draws the lock targets with all flags unlocked, and starts the scramble |
| `MainEntrance.Entrance.FireFooter` | src/app/hooks/useMainEntrance.ts:125-127 | step 3 shows the footer |
| `MainEntrance.Entrance.FireBurger` | src/app/hooks/useMainEntrance.ts:130-132 | step 4 shows the burger |
| `MainEntrance.Entrance.FirePopup` | src/app/hooks/useMainEntrance.ts:135-137 | step 5 calls the welcome popup once |
| `MainEntrance.Entrance.Tick` | src/app/hooks/useMainEntrance.ts:95-121 | a lock never comes undone, a position locks at its target frame, the display keeps nine characters, and once all are locked the title shows and the interval stops |
| `MainEntrance.ScrambleEndsInTime` | src/app/hooks/useMainEntrance.ts:95-121 | while the scramble runs its frame stays below 9m+3, so it ends by then |
| `ConfirmScreen.RepeatText` | src/app/hooks/useConfirmScreen.ts:179 | `repeat(k)` is k copies long |
| `ConfirmScreen.AdvanceProgress` | src/app/hooks/useConfirmScreen.ts:163-245 | every chain callback keeps the typed counters consistent, never goes back a stage, and brings the selector one step closer |
| `ConfirmScreen.AdvanceLeavesStage` | src/app/hooks/useConfirmScreen.ts:163-245 | the chain stays on a stage exactly while that stage's text is still being typed |
| `ConfirmScreen.ChainCompletes` | src/app/hooks/useConfirmScreen.ts:163-245 | from any point the chain ends with every text typed in full and three dots shown |
| `ConfirmScreen.ChainLength` | src/app/hooks/useConfirmScreen.ts:163-245 | a fresh chain takes 12 + the four text lengths callbacks to reach the selector |
| `ConfirmScreen.Shown` | src/app/hooks/useConfirmScreen.ts:168-211 | each typed field is the prefix of its text that its counter says |
| `ConfirmScreen.LoadingSchedule` | src/app/hooks/useConfirmScreen.ts:108-126 | the loading dots go one, two, three dots, then nothing, in increasing time, all before the 1600 ms timer |
| `ConfirmScreen.Toggle` | src/app/hooks/useConfirmScreen.ts:327 | an arrow key switches to the other option |
| `ConfirmScreen.Registry.AddTimer` | src/app/hooks/useConfirmScreen.ts:65-68 | `addTimer` records the timeout and drops nothing |
| `ConfirmScreen.Registry.AddInterval` | src/app/hooks/useConfirmScreen.ts:70-73 | `addInterval` records the interval and drops nothing |
| `ConfirmScreen.Hook.constructor` | src/app/hooks/useConfirmScreen.ts:41-63 | the hook starts with empty texts, nothing shown, YES selected and no timer registered |
| `ConfirmScreen.Hook.ClearAllTimers` | src/app/hooks/useConfirmScreen.ts:75-79 | cancels every registered timer and empties both lists; the visible state is unchanged |
| `ConfirmScreen.Hook.ResetConfirmState` | src/app/hooks/useConfirmScreen.ts:81-93 | cancels the timers, empties the texts and dots, hides selector, cursor, language switch and loading dots, and keeps the selected option |
| `ConfirmScreen.Hook.StartTyping` | src/app/hooks/useConfirmScreen.ts:137-161 | the typing effect's body empties the texts and registers the cursor timer and the chain's start |
| `ConfirmScreen.Hook.TypingEffect` | src/app/hooks/useConfirmScreen.ts:135-251 | the chain restarts exactly on the confirm phase with the selector hidden and no scramble; otherwise only the previous cleanup runs |
| `ConfirmScreen.Hook.FireCursor` | src/app/hooks/useConfirmScreen.ts:157-161 | the 300 ms timer shows the cursor |
| `ConfirmScreen.Hook.StepChain` | src/app/hooks/useConfirmScreen.ts:163-245 | a chain callback types one more character or dot, or registers the next stage's timer; the last callback shows the selector and the language switch |
| `ConfirmScreen.Hook.HandleConfirmSelect` | src/app/hooks/useConfirmScreen.ts:96-132 | YES clears the texts, shows the loading dots and registers the four dot timers and the final timer, with the schedule built from the current language's dot (not the one the typing chain captured); NO calls `onSelectNo` at once |
| `ConfirmScreen.Hook.FireLoading` | src/app/hooks/useConfirmScreen.ts:116-118 | a dot timer shows its step of the schedule |
| `ConfirmScreen.Hook.FireFinish` | src/app/hooks/useConfirmScreen.ts:121-126 | the 1600 ms timer hides the dots and calls `onSelectYes` once |
| `ConfirmScreen.Hook.KeyDown` | src/app/hooks/useConfirmScreen.ts:322-335 | keys act only on the confirm phase with the selector shown: the arrows toggle the option, Enter selects it, with YES scheduling the current language's dots |
| `ConfirmScreen.Hook.LanguageEffect` | src/app/hooks/useConfirmScreen.ts:254-319 | a scramble starts exactly on the confirm phase, with the selector shown, none running and a changed language |
| `ConfirmScreen.Hook.ScrambleTick` | src/app/hooks/useConfirmScreen.ts:270-315 | each text shows its locked prefix with glyphs elsewhere (nothing passes through); at frame 15 the new texts show and the flag is lowered |
| `ConfirmScreen.Hook.LanguageEffectAsWritten` | src/app/hooks/useConfirmScreen.ts:254-319 | with the flag in the dependency list the interval is cleared before its first tick and the flag stays raised |
| `ConfirmScreen.Hook.RunScramble` | src/app/hooks/useConfirmScreen.ts:267-315 | a started scramble runs to its end: the new question and options show and the flag is lowered |
| `WindowManager.ValuesInOrder` | src/app/portfolio/hooks/useWindowManager.ts:178 | the map's values in insertion order |
| `WindowManager.FilterVisible` | src/app/portfolio/hooks/useWindowManager.ts:178 | keeps exactly the open, non-minimized windows |
| `WindowManager.FilterTray` | src/app/portfolio/hooks/useWindowManager.ts:183 | keeps exactly the open, minimized windows |
| `WindowManager.OpenWindows` | src/app/portfolio/hooks/useWindowManager.ts:177-179 | `getOpenWindows` holds exactly the registered windows that are open and not minimized |
| `WindowManager.InsertByTrayKey` | src/app/portfolio/hooks/useWindowManager.ts:184 | inserting into a sorted list keeps it sorted and adds exactly the one window |
| `WindowManager.SortByTrayKey` | src/app/portfolio/hooks/useWindowManager.ts:184 | the sort by `minimizedAt` (missing as 0) is sorted and a permutation |
| `WindowManager.MinimizedWindows` | src/app/portfolio/hooks/useWindowManager.ts:181-185 | `getMinimizedWindows` holds exactly the open, minimized windows, oldest first |
| `WindowManager.NextPosition` | src/app/portfolio/hooks/useWindowManager.ts:36-42 | a new window's position lies in [50,249] × [50,199] |
| `WindowManager.PositionCycle` | src/app/portfolio/hooks/useWindowManager.ts:39-40 | the first window lands at (50,50) and the cascade repeats every 20 windows |
| `WindowManager.Registry.constructor` | src/app/portfolio/hooks/useWindowManager.ts:33-34 | no windows, counter at 100 |
| `WindowManager.Registry.Open` | src/app/portfolio/hooks/useWindowManager.ts:49-77 | an existing window is reopened, unminimized and raised with its title, position, size and maximized flag kept; a new one is created at the cascade position, 400×300, on top; the counter goes up by one |
| `WindowManager.Registry.Close` | src/app/portfolio/hooks/useWindowManager.ts:79-82 | removes the entry (no-op when absent), drops its key from the iteration order keeping the others in order, and touches nothing else |
| `WindowManager.Registry.Minimize` | src/app/portfolio/hooks/useWindowManager.ts:84-90 | sets only the minimized flag and time of that window, if present |
| `WindowManager.Registry.Maximize` | src/app/portfolio/hooks/useWindowManager.ts:92-99 | a present window is maximized and raised above all others; an absent id changes nothing |
| `WindowManager.Registry.Restore` | src/app/portfolio/hooks/useWindowManager.ts:101-113 | a present window loses both flags and is raised; an absent id changes nothing |
| `WindowManager.Registry.Focus` | src/app/portfolio/hooks/useWindowManager.ts:115-122 | a present, non-minimized window is raised; a minimized or absent one changes nothing |
| `WindowManager.Registry.Move` | src/app/portfolio/hooks/useWindowManager.ts:124-130 | changes only that window's position |
| `WindowManager.Registry.Resize` | src/app/portfolio/hooks/useWindowManager.ts:132-138 | changes only that window's size |
| `WindowManager.Registry.Dispatch` | src/app/portfolio/hooks/useWindowManager.ts:44-143 | no action touches another window, the counter rises by at most one, an unknown id is a no-op except for OPEN, and every z-index stays at most the counter |
| `WindowManager.RemoveKey` | src/app/portfolio/hooks/useWindowManager.ts:80 | deleting a key keeps the order of the others and leaves no duplicate |
| `WindowManager.CloseThenOpen` | src/app/portfolio/hooks/useWindowManager.ts:61-74 | closing and reopening a window recreates it at the default size, not maximized, on top, at the cascade position of the windows left after the close (not its old position), with the counter one higher and the other windows unchanged |
| `Win31Window.Render` | src/app/portfolio/components/Win31Window.tsx:118-136 | nothing renders exactly when the window is closed or minimized; maximized fills the screen; otherwise each side is the larger of the size and the minimum |
| `Win31Window.DefaultMinimumSize` | src/app/portfolio/components/Win31Window.tsx:42-43 | without given minimums a placed window is at least 200×100 |
| `Win31Window.ControlClick` | src/app/portfolio/components/Win31Window.tsx:214-217 | a disabled control button never fires; an enabled one fires its handler |
| `Win31Window.MaximizeDispatch` | src/app/portfolio/components/Win31Window.tsx:185-189 | the middle button restores a maximized window, maximizes another, and does nothing unless the window can be maximized |
| `Win31Window.MoveTarget` | src/app/portfolio/components/Win31Window.tsx:93-96 | a move reports pointer minus offset, with negative coordinates raised to 0 |
| `Win31Window.MoveBackToStart` | src/app/portfolio/components/Win31Window.tsx:82-96 | moving the pointer back to where the drag started puts a window back at its position |
| `Win31Window.MoveFollowsPointer` | src/app/portfolio/components/Win31Window.tsx:82-96 | while on screen the window moves by exactly the pointer's displacement |
| `Win31Window.Chrome.constructor` | src/app/portfolio/components/Win31Window.tsx:46-47 | not dragging, zero offset |
| `Win31Window.Chrome.DragStart` | src/app/portfolio/components/Win31Window.tsx:76-86 | ignored when maximized; otherwise focuses the window and records offset = pointer − position |
| `Win31Window.Chrome.Move` | src/app/portfolio/components/Win31Window.tsx:89-97 | reports a non-negative position exactly while dragging |
| `Win31Window.Chrome.DragEnd` | src/app/portfolio/components/Win31Window.tsx:99-101 | releasing ends the drag |
| `Win31Window.DragInPlace` | src/app/portfolio/components/Win31Window.tsx:76-101 | a drag released over its starting point leaves the window where it was |
| `Solitaire.SuitIndex` | src/app/portfolio/components/apps/Solitaire.tsx:185 | `SUITS.indexOf` finds the suit |
| `Solitaire.SuitName` | src/app/portfolio/components/apps/Solitaire.tsx:31 | a suit's name is lower-case letters only, so it holds no '-' |
| `Solitaire.CardIdInjective` | src/app/portfolio/components/apps/Solitaire.tsx:68 | a card id `suit-value` determines the suit and value |
| `Solitaire.Deck` | src/app/portfolio/components/apps/Solitaire.tsx:60-73 | 52 cards, face down, values 1..13 |
| `Solitaire.CreateDeck` | src/app/portfolio/components/apps/Solitaire.tsx:60-73 | the nested loops build exactly that deck |
| `Solitaire.DeckComplete` | src/app/portfolio/components/apps/Solitaire.tsx:62-70 | every suit and value appears in the deck |
| `Solitaire.DeckIdsDistinct` | src/app/portfolio/components/apps/Solitaire.tsx:68 | the 52 ids are distinct |
| `Solitaire.Shuffle` | src/app/portfolio/components/apps/Solitaire.tsx:75-82 | whatever the random indices, the shuffle keeps exactly the deck's cards |
| `Solitaire.Top` | src/app/portfolio/components/apps/Solitaire.tsx:223 | the last card of a pile, or none for an empty pile |
| `Solitaire.FoundationGrows` | src/app/portfolio/components/apps/Solitaire.tsx:96-100 | a card may go on a foundation exactly when the pile with it on top is still Ace-upwards in one suit |
| `Solitaire.RunDescends` | src/app/portfolio/components/apps/Solitaire.tsx:88-94 | in a face-up run each card is one lower than the one it lies on |
| `Solitaire.NoStackOnOwnRun` | src/app/portfolio/components/apps/Solitaire.tsx:88-94 | no card of a pile's run may go on that pile's own top, so a move's target is never its source |
| `Solitaire.DealtTableau` | src/app/portfolio/components/apps/Solitaire.tsx:114-121 | seven piles, each dealt from its stretch of the deck |
| `Solitaire.InitGame` | src/app/portfolio/components/apps/Solitaire.tsx:108-133 | the dealing loops build exactly the dealt game |
| `Solitaire.DealtValid` | src/app/portfolio/components/apps/Solitaire.tsx:108-133 | pile i holds i+1 cards with only the last face up, the stock the other 24 face down, waste and foundations empty, and the 52 cards conserved |
| `Solitaire.Exposed` | src/app/portfolio/components/apps/Solitaire.tsx:248-250 | the pile's new top is turned face up, nothing else changes |
| `Solitaire.TurnedUp` | src/app/portfolio/components/apps/Solitaire.tsx:235 | the same cards, all face up |
| `Solitaire.Recycled` | src/app/portfolio/components/apps/Solitaire.tsx:157 | the waste reversed, face down |
| `Solitaire.DrawFromStockAsWritten` | src/app/portfolio/components/apps/Solitaire.tsx:151-173 | an empty stock takes the reversed waste face down; otherwise the last min(3, stock) cards go face up, in order, onto the waste; the selection is kept |
| `Solitaire.TableauClick` | src/app/portfolio/components/apps/Solitaire.tsx:216-257 | nothing happens without a selection; an illegal move only drops the selection |
| `Solitaire.PlaceOnFoundation` | src/app/portfolio/components/apps/Solitaire.tsx:273-291 | a foundation move leaves the stock alone and drops the selection |
| `Solitaire.FoundationClick` | src/app/portfolio/components/apps/Solitaire.tsx:259-295 | anything but one selected card of the foundation's suit that may go on it only drops the selection |
| `Solitaire.TryMoveToFoundation` | src/app/portfolio/components/apps/Solitaire.tsx:182-214 | a card that may not go on its suit's foundation only drops the selection |
| `Solitaire.ClickWaste` | src/app/portfolio/components/apps/Solitaire.tsx:703-709 | selects the waste's top card, if any |
| `Solitaire.ClickTableauCard` | src/app/portfolio/components/apps/Solitaire.tsx:824-837 | a face-down card ignores clicks; without a selection the card and all above it are selected |
| `Solitaire.ClickEmptyPile` | src/app/portfolio/components/apps/Solitaire.tsx:795-802 | a click on an empty pile is one tableau move even though two handlers run |
| `Solitaire.DrawKeepsValid` | src/app/portfolio/components/apps/Solitaire.tsx:151-173 | drawing with the stale waste selection dropped keeps a valid game valid and the foundations unchanged |
| `Solitaire.WasteToTableauKeepsValid` | src/app/portfolio/components/apps/Solitaire.tsx:241-242 | a legal waste-to-pile move puts the card face up on the pile, drops the waste top, and conserves every card |
| `Solitaire.TableauToTableauKeepsValid` | src/app/portfolio/components/apps/Solitaire.tsx:243-253 | a legal pile-to-pile move appends the run face up, cuts the source and turns up its new top, and conserves every card |
| `Solitaire.TableauClickKeepsValid` | src/app/portfolio/components/apps/Solitaire.tsx:216-257 | `handleTableauClick` keeps a valid game valid and the foundations unchanged |
| `Solitaire.PlaceKeepsValid` | src/app/portfolio/components/apps/Solitaire.tsx:273-291 | placing a legal top card on its foundation keeps the game valid and adds exactly one card there |
| `Solitaire.FoundationClickKeepsValid` | src/app/portfolio/components/apps/Solitaire.tsx:259-295 | `handleFoundationClick` keeps the game valid and either changes no foundation or adds the one selected card |
| `Solitaire.TryMoveKeepsValid` | src/app/portfolio/components/apps/Solitaire.tsx:182-214 | `tryMoveToFoundation` on a pile's top keeps the game valid |
| `Solitaire.ClickWasteKeepsValid` | src/app/portfolio/components/apps/Solitaire.tsx:706-709 | selecting the waste top keeps the game valid |
| `Solitaire.ClickTableauCardKeepsValid` | src/app/portfolio/components/apps/Solitaire.tsx:824-837 | a click on a tableau card keeps the game valid |
| `Solitaire.FoundationBounded` | src/app/portfolio/components/apps/Solitaire.tsx:96-100 | a foundation never holds more than 13 cards |
| `Solitaire.WonMeansComplete` | src/app/portfolio/components/apps/Solitaire.tsx:141-149 | 52 foundation cards means every foundation holds Ace to King of its suit, and the foundations never exceed 52 |
| `Solitaire.StaleWasteSelection` | src/app/portfolio/components/apps/Solitaire.tsx:151-173 | as written a draw leaves a selection naming a card that is no longer the waste top |
| `Solitaire.StaleSelectionLosesCard` | src/app/portfolio/components/apps/Solitaire.tsx:216-257 | the stale selection then duplicates the King and loses the drawn card |
| `Solitaire.App.constructor` | src/app/portfolio/components/apps/Solitaire.tsx:103-104 | the first render deals a shuffled deck and the game is not won |
| `Solitaire.App.CheckWin` | src/app/portfolio/components/apps/Solitaire.tsx:141-149 | the win flag is raised once the foundations hold 52 cards |
| `Solitaire.App.OnNewGame` | src/app/portfolio/components/apps/Solitaire.tsx:135-138 | a new game is a fresh deal, not won |
| `Solitaire.App.OnStockClick` | src/app/portfolio/components/apps/Solitaire.tsx:679 | a stock click draws and keeps the game valid |
| `Solitaire.App.OnWasteClick` | src/app/portfolio/components/apps/Solitaire.tsx:706-709 | a waste click selects its top and keeps the game valid |
| `Solitaire.App.OnTableauCardClick` | src/app/portfolio/components/apps/Solitaire.tsx:824-837 | a tableau card click selects or moves, keeping the game valid |
| `Solitaire.App.OnEmptyPileClick` | src/app/portfolio/components/apps/Solitaire.tsx:795-802 | an empty pile click moves the selection there if legal, keeping the game valid |
| `Solitaire.App.OnFoundationClick` | src/app/portfolio/components/apps/Solitaire.tsx:728 | a foundation click keeps the game valid, and a won game stays won |
| `Minesweeper.Settings` | src/app/portfolio/components/apps/Minesweeper.tsx:15-19 | each level is at least 3×3 with room for its mines outside any 3×3 block; beginner is 81 cells |
| `Minesweeper.EmptyBoard` | src/app/portfolio/components/apps/Minesweeper.tsx:64-76 | a rows × cols grid of mine-free, hidden, unflagged cells with count 0 |
| `Minesweeper.NoMineAround` | src/app/portfolio/components/apps/Minesweeper.tsx:123-131 | the neighbour count is zero exactly when no cell of the 3×3 block holds a mine |
| `Minesweeper.PlaceMines` | src/app/portfolio/components/apps/Minesweeper.tsx:100-137 | mines are added only outside the block around the first click, never more than asked, with the flags and shown cells kept and every count right |
| `Minesweeper.CountNeighbours` | src/app/portfolio/components/apps/Minesweeper.tsx:118-135 | every safe cell gets the number of in-bounds mines among its 8 neighbours; mines are unchanged |
| `Minesweeper.CountCell` | src/app/portfolio/components/apps/Minesweeper.tsx:122-132 | the `dr`, `dc` loops count exactly the in-bounds mines around the cell |
| `Minesweeper.CountsKept` | src/app/portfolio/components/apps/Minesweeper.tsx:152-153 | revealing cells changes no mine, so right counts stay right |
| `Minesweeper.RevealCell` | src/app/portfolio/components/apps/Minesweeper.tsx:140-172 | off the board, on a shown or a flagged cell the board is unchanged; a mine or a numbered cell is shown alone; otherwise every neighbour of each opened safe zero cell is opened, and every opened cell is reached from the clicked one by a walk through opened safe zero cells, so the cascade is exactly the source's; it never opens a flag, and with right counts it opens no mine |
| `Minesweeper.RevealAround` | src/app/portfolio/components/apps/Minesweeper.tsx:156-169 | the neighbour loops of a zero cell reveal every neighbour's cascade |
| `Minesweeper.RevealNeighbour` | src/app/portfolio/components/apps/Minesweeper.tsx:159-166 | one neighbour's reveal copied back keeps the loop's progress |
| `Minesweeper.RevealShowsNoMine` | src/app/portfolio/components/apps/Minesweeper.tsx:155-169 | a reveal from a safe cell never shows a mine |
| `Minesweeper.ShowMines` | src/app/portfolio/components/apps/Minesweeper.tsx:187-192 | the loss board has the board's shape |
| `Minesweeper.FirstPlacement` | src/app/portfolio/components/apps/Minesweeper.tsx:179-183 | the first click's placement leaves no mine in the clicked cell's block, right counts, no more mines than the level's, nothing shown, and the flags unchanged |
| `Minesweeper.Open` | src/app/portfolio/components/apps/Minesweeper.tsx:185-209 | a mine loses and reveals every mine and nothing else; otherwise the board changes only by the clicked cell's cascade, no mine shows, and the game is won exactly when every safe cell is revealed |
| `Minesweeper.Click` | src/app/portfolio/components/apps/Minesweeper.tsx:177-209 | the board after a click: the first click places mines without losing, the clicked cell is revealed, no flag changes, a loss reveals exactly the mines, otherwise exactly the clicked cell's cascade is opened and no mine shows, and a win means no hidden safe cell is left |
| `Minesweeper.FlagToggled` | src/app/portfolio/components/apps/Minesweeper.tsx:216-217 | toggling one cell's flag changes the flag tally by one and keeps every mine, every shown cell, the counts and the mine tally |
| `Minesweeper.Game.constructor` | src/app/portfolio/components/apps/Minesweeper.tsx:53-59 | beginner level, empty 9×9 board, counter 10, timer stopped at 0 |
| `Minesweeper.Game.Initialize` | src/app/portfolio/components/apps/Minesweeper.tsx:64-84 | an empty board of the level's size, playing, the counter at the level's mines, timer stopped at 0, waiting for the first click |
| `Minesweeper.Game.SetDifficulty` | src/app/portfolio/components/apps/Minesweeper.tsx:86-88 | a different level re-initializes the board; the same level changes nothing |
| `Minesweeper.Game.CellClick` | src/app/portfolio/components/apps/Minesweeper.tsx:174-210 | no-op once over or on a flag; the first click is never a loss; a loss stops the timer and shows every mine; otherwise exactly the clicked cell's cascade is opened, and the game is won exactly when every safe cell is revealed; flags are never changed |
| `Minesweeper.Game.RightClick` | src/app/portfolio/components/apps/Minesweeper.tsx:212-222 | while playing, toggles the flag of a hidden cell, with the counter down one for a flag and up one for an unflag; otherwise nothing |
| `Minesweeper.Game.Tick` | src/app/portfolio/components/apps/Minesweeper.tsx:90-98 | the timer advances by one and never passes 999 |
| `Paint.ColorsMatchTolerance` | src/app/portfolio/components/apps/Paint.tsx:241-243 | the tolerance is reflexive and symmetric |
| `Paint.ColorsMatchNotTransitive` | src/app/portfolio/components/apps/Paint.tsx:241-243 | it is not transitive |
| `Paint.HexValue` | src/app/portfolio/components/apps/Paint.tsx:248-250 | a hex digit's value is below 16, the digit itself for 0-9 |
| `Paint.HexChar` | src/app/portfolio/components/apps/Paint.tsx:85 | `toString(16)` writes a lower-case digit that reads back as its value |
| `Paint.HexToRgbAccepts` | src/app/portfolio/components/apps/Paint.tsx:245-252 | `hexToRgb` succeeds on exactly the strings of `/^#?[a-f\d]{6}$/i` |
| `Paint.ToHex` | src/app/portfolio/components/apps/Paint.tsx:85 | a byte's hex text has one digit below 16 and two from there on |
| `Paint.HexPairDigits` | src/app/portfolio/components/apps/Paint.tsx:85 | a padded channel is its high digit followed by its low digit |
| `Paint.HexPairRoundTrip` | src/app/portfolio/components/apps/Paint.tsx:85 | a padded channel is two hex digits that parse back to the byte |
| `Paint.FormatRoundTrip` | src/app/portfolio/components/apps/Paint.tsx:245-252 | formatting a colour as `#rrggbb` and parsing it gives the colour back |
| `Paint.ParseThenFormat` | src/app/portfolio/components/apps/Paint.tsx:245-252 | whatever `hexToRgb` accepts is the formatted text of its result, up to the '#' and letter case |
| `Paint.PaletteParses` | src/app/portfolio/components/apps/Paint.tsx:6-11 | every palette colour parses |
| `Paint.IndexInBuffer` | src/app/portfolio/components/apps/Paint.tsx:229 | the four bytes of an in-canvas pixel lie inside the buffer |
| `Paint.OwnerIndex` | src/app/portfolio/components/apps/Paint.tsx:234-238 | a byte belongs to pixel (x, y) exactly when it is one of the four at 4(y·w+x) |
| `Paint.SetPixelColor` | src/app/portfolio/components/apps/Paint.tsx:233-239 | writes r, g, b and 255 at the pixel's four bytes and nothing else, and `getPixelColor` reads the colour back |
| `Paint.Neighbours` | src/app/portfolio/components/apps/Paint.tsx:222 | the four pushed pixels are exactly the pixel's 4-neighbours |
| `Paint.Closed` | src/app/portfolio/components/apps/Paint.tsx:210-223 | once no matching neighbour of a visited pixel is unvisited, every walk from the start ends on a visited pixel |
| `Paint.Done` | src/app/portfolio/components/apps/Paint.tsx:210-223 | with the stack empty, the visited pixels are exactly those reachable from the start |
| `Paint.FillRegion` | src/app/portfolio/components/apps/Paint.tsx:207-223 | the loop recolours exactly the pixels 4-connected to the start through matching pixels, and nothing else |
| `Paint.FloodFill` | src/app/portfolio/components/apps/Paint.tsx:198-226 | an unparsable fill, a matching target or an off-canvas start changes nothing; otherwise exactly the in-canvas pixels reachable through matching pixels are filled, and every other byte is untouched |
| `Paint.Editor.constructor` | src/app/portfolio/components/apps/Paint.tsx:18-20 | black on white, pencil |
| `Paint.Editor.SwapColors` | src/app/portfolio/components/apps/Paint.tsx:432-436 | exchanges the foreground and background colours |
| `Paint.Editor.PickSwatch` | src/app/portfolio/components/apps/Paint.tsx:465 | a left click sets the foreground colour |
| `Paint.Editor.PickBackground` | src/app/portfolio/components/apps/Paint.tsx:466-469 | a right click sets the background colour |
| `Paint.Editor.SelectTool` | src/app/portfolio/components/apps/Paint.tsx:292-342 | a tool button selects its tool and keeps the colours |
| `Paint.Editor.PickColor` | src/app/portfolio/components/apps/Paint.tsx:83-88 | given the four bytes `getImageData(x, y, 1, 1)` copies out, the eyedropper sets the foreground to the `#rrggbb` text of their red, green and blue, which parses back to exactly those channels, keeps the background, and returns to the pencil |
| `Paint.Editor.FillAt` | src/app/portfolio/components/apps/Paint.tsx:112-114 | the fill tool recolours exactly the pixels reachable from the pointer's pixel through pixels within tolerance of its colour, with the foreground colour; off the canvas, or on a pixel that already matches the foreground, nothing changes |
| `Paint.SwapTwice` | src/app/portfolio/components/apps/Paint.tsx:432-436 | swapping twice restores both colours |
| `Calculator.NoDots` | src/app/portfolio/components/apps/Calculator.tsx:64 | a display has no '.' exactly when `includes('.')` is false |
| `Calculator.EnterDigitNumeral` | src/app/portfolio/components/apps/Calculator.tsx:56 | entering a digit keeps the display a numeral |
| `Calculator.EnterDecimalNumeral` | src/app/portfolio/components/apps/Calculator.tsx:64-66 | entering '.' leaves exactly one '.' |
| `Calculator.TypedNumeral` | src/app/portfolio/components/apps/Calculator.tsx:51-67 | any sequence of digit and '.' keys keeps the display a numeral, with never two '.' |
| `Calculator.Compute` | src/app/portfolio/components/apps/Calculator.tsx:89-104 | each operator's result relates to its operands as its inverse says; division by zero gives 0 |
| `Calculator.Calc.constructor` | src/app/portfolio/components/apps/Calculator.tsx:45-49 | display "0", nothing pending, memory 0 |
| `Calculator.Calc.InputDigit` | src/app/portfolio/components/apps/Calculator.tsx:51-58 | when waiting, the digit replaces the display and the wait ends; otherwise a lone '0' is replaced or the digit appended |
| `Calculator.Calc.InputDecimal` | src/app/portfolio/components/apps/Calculator.tsx:60-67 | when waiting, the display becomes "0."; otherwise '.' is added only if absent |
| `Calculator.Calc.Clear` | src/app/portfolio/components/apps/Calculator.tsx:69-74 | resets display, operand, operator and waiting; memory kept |
| `Calculator.Calc.ClearEntry` | src/app/portfolio/components/apps/Calculator.tsx:76-78 | changes only the display |
| `Calculator.Calc.PerformOperation` | src/app/portfolio/components/apps/Calculator.tsx:80-112 | the first operator stores the operand; later ones show the pending result; always ends waiting, with the new operator pending |
| `Calculator.Calc.Calculate` | src/app/portfolio/components/apps/Calculator.tsx:114-120 | acts only with an operator and operand pending, shows the result and clears both |
| `Calculator.Calc.ToggleSign` | src/app/portfolio/components/apps/Calculator.tsx:122-125 | shows the negated value |
| `Calculator.Calc.Percentage` | src/app/portfolio/components/apps/Calculator.tsx:127-130 | shows the value divided by 100 |
| `Calculator.Calc.MemoryClear` | src/app/portfolio/components/apps/Calculator.tsx:137 | memory becomes 0 |
| `Calculator.Calc.MemoryRecall` | src/app/portfolio/components/apps/Calculator.tsx:138 | shows the memory |
| `Calculator.Calc.MemoryAdd` | src/app/portfolio/components/apps/Calculator.tsx:139 | adds the display's value to memory |
| `Calculator.Calc.MemorySubtract` | src/app/portfolio/components/apps/Calculator.tsx:140 | subtracts the display's value from memory |
| `Notepad.Substring` | src/app/portfolio/components/apps/Notepad.tsx:48 | `substring(a, b)` is the slice for in-range arguments |
| `Notepad.SubstringFrom` | src/app/portfolio/components/apps/Notepad.tsx:62 | `substring(a)` is the suffix for an in-range argument |
| `Notepad.SpliceSelection` | src/app/portfolio/components/apps/Notepad.tsx:60-64 | a paste keeps what precedes and follows the selection, puts the text in its place, and changes the length by the text minus the selection |
| `Notepad.CutThenPaste` | src/app/portfolio/components/apps/Notepad.tsx:74-82 | a cut shortens the text by the selection, and pasting the cut text back restores it |
| `Notepad.StatusBar` | src/app/portfolio/components/apps/Notepad.tsx:156-157 | the name shows " *" exactly when modified, and the count reads back as the content's length in UTF-16 code units, the unit `length` counts |
| `Notepad.Editor.constructor` | src/app/portfolio/components/apps/Notepad.tsx:8-10 | empty, "Untitled", unmodified |
| `Notepad.Editor.Load` | src/app/portfolio/components/apps/Notepad.tsx:13-24 | a saved entry is loaded, an empty name falling back to "Untitled"; without one nothing changes |
| `Notepad.Editor.HandleChange` | src/app/portfolio/components/apps/Notepad.tsx:26-29 | sets the content and marks it modified |
| `Notepad.Editor.HandleNew` | src/app/portfolio/components/apps/Notepad.tsx:31-38 | a modified document that the user keeps is untouched; otherwise the document is empty, "Untitled" and unmodified |
| `Notepad.Editor.HandleSave` | src/app/portfolio/components/apps/Notepad.tsx:40-43 | stores the content and name and clears the modified flag |
| `Notepad.Editor.HandleCopy` | src/app/portfolio/components/apps/Notepad.tsx:45-53 | copies the selection exactly when it is not empty |
| `Notepad.Editor.HandlePaste` | src/app/portfolio/components/apps/Notepad.tsx:55-69 | replaces the selection with the clipboard text and marks modified; a refused clipboard changes nothing |
| `Notepad.Editor.HandleCut` | src/app/portfolio/components/apps/Notepad.tsx:71-83 | copies the selection and removes it when start ≠ end, marking modified; otherwise the content is unchanged |
| `Notepad.SaveThenLoad` | src/app/portfolio/components/apps/Notepad.tsx:13-43 | saving then loading gives back the text and name, unmodified |

## Left out

- **Rendering.** JSX, CSS, the SVG clock hands and the menus are not modelled.
- **Paint's canvas tools.** Pencil, brush, spray, line, rectangle, ellipse and text are not modelled.
- **Paint's canvas access.** `getImageData` and `putImageData` are not modelled: the fill works on the byte buffer those calls copy.
- **Paint's coordinates.** Canvas coordinate scaling is not modelled, and pointer coordinates are whole pixels.
- **Randomness.** `Math.random` is not part of this model. The shuffle indices, the mine coordinates, the glyph draws, the lock jitter and the popup delay are parameters.
- **Timers.** Timer delays are not modelled. Each callback runs when the environment calls its method, and only the order of callbacks is modelled.
- Minesweeper.PlaceMines: the draws are a finite sequence, so the contract says at most `mines` are placed, and fewer only when every remaining draw was blocked. The source keeps drawing until all are placed.
- Minesweeper.FirstPlacement: for the same reason it states at most the level's mines, not exactly that many.
- Solitaire.Shuffle: states that the result is a permutation of the deck, not that it is uniformly distributed.
- **Solitaire's drag and drop.** `handleDragStart` and the drop handler are left out, because they depend on `document.elementsFromPoint` hit testing.
- **Solitaire's `tryMoveToFoundation`.** It is modelled but not reachable from any click, as in the source, which never calls it.
- **Calculator floating point.** Values are exact reals.
- **Calculator's `parseFloat` and `String`.** They are abstract functions of the calculator. The only property required of `String` is that it writes at most one '.'.
- **Calculator's other numeric behaviour.** `sqrt`, NaN and Infinity are not modelled.
- **Notepad's storage.** The localStorage entry is a field, and JSON encoding and decoding are taken to round-trip.
- **Notepad's dialogs and clipboard.** The `confirm()` answer is a boolean input. The clipboard is an optional input: `None` means the read was refused.
- **Notepad's textarea.** It is assumed present.
- **Notepad's file name.** It is a string of characters, because it is only shown and compared with the empty string; the edited text is UTF-16 code units.
- **Notepad's Select All.** It only touches the DOM, so it is not modelled.
- **Window registry semantics.** The registry is sequential: each action sees the latest counter and the latest windows, not those of the render in which `dispatch` was created. So two windows opened by one render's `dispatch` get consecutive z-indices and successive cascade positions here, where the source gives both `topZIndex + 1` and lets `getNextPosition` count the same windows for both. `Date.now()` is a parameter of MINIMIZE.
- **Window registry wrappers.** `getWindow` and the one-line `openWindow`…`moveWindow` wrappers are the map lookup and `Dispatch`.
- **Window animations and listeners.** The opening, closing and minimizing animations of a window and its document listeners are not modelled. The close and minimize buttons forward to the registry's CLOSE and MINIMIZE.
- **Time of day.** The clock takes its time of day as hours, minutes and seconds. `Date` is not modelled.
- **Lock arithmetic.** `Math.floor((frame / max) * len)` is the integer `(frame * len) / max`. Floating-point rounding at exact multiples is not modelled.
- **Texts and glyph alphabets.** The translations, `getDotChar` and `SCRAMBLE_CHARS` are not part of this model. The texts, the dot string and the two glyph alphabets are parameters, and the alphabets are non-empty.
- **Popup delay.** The normal-mode popup delay is a whole number of milliseconds in [18000, 22000).
- **Flood fill's visited set.** It is a set of coordinate pairs instead of "x,y" strings. The two are equivalent for whole-number coordinates.
- **Flood fill from off the canvas.** A fill that starts off the canvas is a no-op without reading a target colour. The source reads `undefined` there, but its only stacked pixel is then skipped, so the buffer is unchanged either way.
- Paint.FloodFill: requires a non-empty canvas. The component's canvas is always 420×280.
- **Minesweeper's cell size.** The responsive cell size and the other presentational files are not modelled.

## Findings

| source | as written | input that shows it | evidently intended | confidence | as-written member | corrected member |
|---|---|---|---|---|---|---|
| src/app/portfolio/components/apps/Solitaire.tsx:151-173 | `drawFromStock` keeps `selectedCards`, although the drawn cards now cover the waste card it names, or that card has been recycled into the stock | Select a King on the waste while a five is left in the stock, click the stock, then click an empty pile. The King is put on the pile but stays in the waste, and the five is removed from the game | a draw drops a waste selection, so every move conserves the 52 cards | high, not executed | `Solitaire.DrawFromStockAsWritten`, `Solitaire.StaleSelectionLosesCard` | `Solitaire.DrawFromStock`, `Solitaire.DrawKeepsValid` |
| src/app/hooks/useConfirmScreen.ts:254-319 | the language-scramble effect lists `isConfirmScrambling` among its dependencies, so raising the flag re-runs the effect. The cleanup clears the 50 ms interval before its first tick, and the new run returns because the flag is up | On the confirm screen with the selector shown, change the language. The question and options keep the old language, and the flag stays raised | the interval runs its 15 frames, shows the new texts and lowers the flag | medium, not executed | `ConfirmScreen.Hook.LanguageEffectAsWritten` | `ConfirmScreen.Hook.LanguageEffect`, `ConfirmScreen.Hook.RunScramble` |
