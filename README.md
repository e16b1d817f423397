# Neuro-Aid patient frontend: a verified model of its logic

The Neuro-Aid patient web frontend is a React application for patients with
memory impairments. Most of it lays out cards and calls a backend. What is
logic is modelled here in Dafny, one module per component:

- **Geofence** (`geofence.dfy`): the monitor of `GeofenceCheck`.
  - It has three states: no safe zone, inside it, outside it.
  - It uses a strict 200 m threshold and sends at most one alert per ten-minute cooldown, recorded in `lastNotified`.
- **TicTacToe** (`tictactoe.dfy`):
  - the winner test over the eight lines;
  - the exhaustive minimax search, which tries moves in place on the board array and undoes them;
  - the computer's choice of move;
  - the click handler, the effect that answers each move, and the reset.
- **Notifications** (`notifications.dfy`): the reminder and appointment list.
  - It combines the fetched lists and prunes expired appointments every 30 seconds.
  - It adds a reminder after validating the input, and deletes reminders only.
  - It shows the first two tasks unless expanded.
- **MemoryMatch** (`memorymatch.dfy`): the flip-and-check protocol of the memory game over an array of twelve cards.
- **Sudoku** (`sudoku.dfy`):
  - cell entry through JavaScript's `parseInt` with a 1..9 range check;
  - the copy-on-write grid and the reset to the starter puzzle;
  - the class list of each cell.
- **BrainQuiz** (`brainquiz.dfy`): the question bank, the four-question quiz drawn from it, answering, scoring and restart.
- **Breathing** (`breathing.dfy`): the 3-3-3-3 breathing cycle of phases, circle sizes and countdown.
- **VoiceChat** (`voicechat.dfy`): the offline keyword responder `getOfflineBotReply`.
- **TimeSlots**, **Dashboard** and **Doctor** (`timeslots.dfy`, `dashboard.dfy`, `doctor.dfy`):
  - the half-hour appointment slots, which both pages generate with their own copy of the same loop;
  - the name each page books an appointment under.
- **Common** (`common.dfy`): `Option` for `null`/`undefined` and ECMAScript white space.

State that a component updates step by step is a class whose methods are its
event handlers and timer callbacks, each proved against a pure function of the
old state. Distances, clocks, random shuffles and backend answers are
parameters of those methods.

## Model

| member | source | states |
|---|---|---|
| Geofence.Initial | src/components/geofence.tsx:40-43 | before anything happens there is no geofence and the status is not-set |
| Geofence.Establish | src/components/geofence.tsx:72-75 | a new centre gives status set and distance 0, whatever the status was, and keeps lastNotified |
| Geofence.Loaded | src/components/geofence.tsx:54-59 | a response without a geofence changes nothing; one with a geofence installs it with status set and distance 0 |
| Geofence.Sample | src/components/geofence.tsx:94-114 | without a geofence a sample changes nothing; otherwise it stores the distance, status is outside iff distance > 200 and set iff distance <= 200, an alert is sent iff outside and due (no stamp, a stored 0, or more than 600000 ms since it), and lastNotified becomes now exactly when an alert is sent |
| Geofence.Run | src/components/geofence.tsx:94-126 | the watch callback fed a stream of samples in order: the final state and the times of the alerts sent (its properties are the lemmas below) |
| Geofence.RunSnoc | src/components/geofence.tsx:96-114 | a run over one more sample is the run so far followed by one sample step |
| Geofence.RunRemembersLastAlert | src/components/geofence.tsx:106-111 | after any run the geofence is unchanged and lastNotified is the last alert sent, or the stored stamp if none was sent |
| Geofence.AlertsComeFromSamples | src/components/geofence.tsx:107-110 | every alert time of a run is the time stamp of one of its samples |
| Geofence.AlertsAreSpaced | src/components/geofence.tsx:105-111 | for samples with positive time stamps, in any order, consecutive alerts are more than ten minutes apart, and the first is more than ten minutes after a stored earlier alert |
| Geofence.AlertStep | src/components/geofence.tsx:105-111 | one more sample keeps the alerts of a run spaced |
| Geofence.LastAlertPositive | src/components/geofence.tsx:107-110 | over positive time stamps the last alert is positive, so `!lastNotified` no longer holds after it |
| Geofence.SpacingStep | src/components/geofence.tsx:108-110 | appending an alert only when it is due, measured from the last alert, keeps the alert list spaced |
| Geofence.SpacedSnoc | src/components/geofence.tsx:108 | an alert more than a cooldown after the last one keeps the list spaced |
| Geofence.OneAlertPerCooldown | src/components/geofence.tsx:105-111 | three outside samples, the second within the cooldown of the first and the third after it, send alerts at the first and third only |
| Geofence.GeofenceCheck.constructor | src/components/geofence.tsx:40-43 | the initial state is the monitor's initial state |
| Geofence.GeofenceCheck.OnFetched | src/components/geofence.tsx:54-59 | a fetched geofence sets status set and distance 0 and keeps lastNotified; no geofence leaves everything unchanged |
| Geofence.GeofenceCheck.SetupGeofence | src/components/geofence.tsx:70-75 | the current position becomes the centre, as Establish states |
| Geofence.GeofenceCheck.OnPosition | src/components/geofence.tsx:96-114 | the new state and the alert flag are exactly those of Sample |
| TicTacToe.Line | src/components/tictactoe.tsx:45-54 | every line names three squares of the board |
| TicTacToe.LineWinner | src/components/tictactoe.tsx:56-57 | the test of one line yields a player only if that player holds all three squares, and nothing if neither player does |
| TicTacToe.WinnerFrom | src/components/tictactoe.tsx:55-60 | the scan yields the mark of the first complete line from k on, or nothing when no later line is complete |
| TicTacToe.Winner | src/components/tictactoe.tsx:44-61 | calculateWinner: the scan from the first line, whose meaning WinnerIsACompleteLine states |
| TicTacToe.WinnerIsACompleteLine | src/components/tictactoe.tsx:44-61 | calculateWinner names p only if some line holds three marks of p, and yields null iff no line is complete for either player |
| TicTacToe.EmptyCountZero | src/components/tictactoe.tsx:67 | no empty square is left iff every square is taken |
| TicTacToe.EmptyCountPlace | src/components/tictactoe.tsx:73 | a mark on an empty square leaves one empty square fewer |
| TicTacToe.Value | src/components/tictactoe.tsx:63-92 | minimax is always finite, and from a reachable depth it lies between depth - 10 and 10 - depth |
| TicTacToe.Scan | src/components/tictactoe.tsx:69-91 | the loop ends with a finite score when any square is empty or a score was already found, and keeps the score within range |
| TicTacToe.Scores | src/components/tictactoe.tsx:97-101 | the score of every square as findBestMove computes it |
| TicTacToe.Empties | src/components/tictactoe.tsx:98 | which squares are empty |
| TicTacToe.BestFromKeeps | src/components/tictactoe.tsx:97-107 | the loop of findBestMove keeps its invariant to the end: an empty square of maximal score, the lowest such square, or -1 when no square was empty |
| TicTacToe.BestSoFarStep | src/components/tictactoe.tsx:102-105 | one turn of the loop, taking the square or not, keeps the invariant |
| TicTacToe.ScanStep | src/components/tictactoe.tsx:102-105 | the same step on plain sequences of scores and empty flags, with the strict `>` |
| TicTacToe.MoveScore | src/components/tictactoe.tsx:98-100 | the score of O playing on square i: minimax at depth 0 with X to move |
| TicTacToe.BestMove | src/components/tictactoe.tsx:94-109 | findBestMove as a function, whose meaning BestMoveIsLowestMaximal states |
| TicTacToe.BestMoveIsLowestMaximal | src/components/tictactoe.tsx:94-109 | findBestMove returns -1 iff the board is full; otherwise an empty square whose score no empty square beats, and no earlier empty square scores as much |
| TicTacToe.Minimax | src/components/tictactoe.tsx:63-92 | the board array is as it was when the search returns, and the score is Value |
| TicTacToe.FindBestMove | src/components/tictactoe.tsx:94-109 | the board array is as it was when it returns, and the move is BestMove |
| TicTacToe.Initial | src/components/tictactoe.tsx:7-9 | nine empty squares, X to move, no verdict |
| TicTacToe.Click | src/components/tictactoe.tsx:30-36 | a taken square, a decided game or O's turn change nothing; otherwise X takes exactly that square and the turn passes to O |
| TicTacToe.Effect | src/components/tictactoe.tsx:12-28 | a full board without a winner is a draw; in every other state the effect behaves as written |
| TicTacToe.EffectAsWritten | src/components/tictactoe.tsx:12-28 | the effect as written: a winner is recorded with the board left alone, and a draw is only announced on X's turn on a full board, which StuckOnFullBoard shows never happens in a drawn game |
| TicTacToe.ComputerMovesLegally | src/components/tictactoe.tsx:16-24 | the computer moves only when nobody has won and it is O's turn; it then puts an O on an empty square, changes no other square, and gives the turn to X |
| TicTacToe.StuckOnFullBoard | src/components/tictactoe.tsx:16-27 | as written, a full board without a winner and with O to move is left unchanged by the effect, and every click is refused |
| TicTacToe.DrawNeverAnnounced | src/components/tictactoe.tsx:12-36 | X's ninth move in a drawn game produces exactly that state, so the draw is never announced |
| TicTacToe.LastMoveFillsBoard | src/components/tictactoe.tsx:30-36 | the last click of the drawn game fills the board and passes the turn to O |
| TicTacToe.NoWinnerBeforeLastMove | src/components/tictactoe.tsx:44-61 | the board before the last move has no winner |
| TicTacToe.NoWinnerOnDrawnBoard | src/components/tictactoe.tsx:44-61 | the drawn board is full and has no winner |
| TicTacToe.NoLineComplete | src/components/tictactoe.tsx:55-60 | a board where every line has two different squares has no winner |
| TicTacToe.DrawAnnounced | src/components/tictactoe.tsx:25-27 | with the full-board test first, every full board without a winner is a draw and then refuses all clicks |
| TicTacToe.Game.constructor | src/components/tictactoe.tsx:7-9 | the initial state |
| TicTacToe.Game.ResetGame | src/components/tictactoe.tsx:38-42 | back to the initial state |
| TicTacToe.Game.HandleClick | src/components/tictactoe.tsx:30-36 | the new state is Click of the old one |
| TicTacToe.Game.RunEffect | src/components/tictactoe.tsx:12-28 | the new state is Effect of the old one |
| TicTacToe.Game.RunEffectAsWritten | src/components/tictactoe.tsx:12-28 | one run of the effect in the order of the source; the new state is EffectAsWritten of the old one |
| Notifications.ParsedStamp | src/components/NotificationsPanel.tsx:45-47 | an appointment's `${date}T${time}` is never missing: it is a time or an invalid date |
| Notifications.Combine | src/components/NotificationsPanel.tsx:42-65 | all appointments, titled "Doctor Appointment", then all reminders, each group in fetch order |
| Notifications.Prune | src/components/NotificationsPanel.tsx:80-87 | the filter of the 30-second interval, whose meaning the Prune lemmas below state |
| Notifications.PruneMembers | src/components/NotificationsPanel.tsx:80-87 | pruning keeps exactly the tasks that are not dated appointments at or before now (an invalid date counts as not after); every reminder stays |
| Notifications.PruneAppend | src/components/NotificationsPanel.tsx:80-87 | pruning distributes over concatenation, so relative order is kept |
| Notifications.PruneKeepsAll | src/components/NotificationsPanel.tsx:80-87 | a list whose tasks all pass the filter is left as it is |
| Notifications.PruneIdempotent | src/components/NotificationsPanel.tsx:80-87 | for a fixed now, pruning twice is pruning once |
| Notifications.FirstIndex | src/components/NotificationsPanel.tsx:189 | the index of the first task with that id, or -1 iff there is none |
| Notifications.FindById | src/components/NotificationsPanel.tsx:189 | `tasks.find` by id: the task at FirstIndex, or none |
| Notifications.RemoveId | src/components/NotificationsPanel.tsx:198 | the filter of deleteTask, whose meaning the RemoveId lemmas below state |
| Notifications.RemoveIdMembers | src/components/NotificationsPanel.tsx:198 | deleting removes every task with that id and keeps every other task |
| Notifications.RemoveIdAppend | src/components/NotificationsPanel.tsx:198 | deleting distributes over concatenation, so order is kept |
| Notifications.RemoveIdAbsent | src/components/NotificationsPanel.tsx:198 | deleting an id no task has changes nothing |
| Notifications.Visible | src/components/NotificationsPanel.tsx:206 | `showAll ? tasks : tasks.slice(0, 2)`, whose meaning ToggleOfferedWhenItMatters states |
| Notifications.ToggleOfferedWhenItMatters | src/components/NotificationsPanel.tsx:272 | the toggle is offered iff the expanded and the collapsed list differ |
| Notifications.CheckAdd | src/components/NotificationsPanel.tsx:132-139 | addTask proceeds iff the title is not blank, a date/time is given and a token is present; a blank title or missing date/time is reported before a missing token |
| Notifications.Panel.constructor | src/components/NotificationsPanel.tsx:23-27 | no tasks, empty inputs, collapsed, not adding |
| Notifications.Panel.OnFetched | src/components/NotificationsPanel.tsx:65-72 | both lists fetched replace the tasks with Combine; a failed fetch changes nothing |
| Notifications.Panel.OnInterval | src/components/NotificationsPanel.tsx:78-88 | the tasks become Prune of the old tasks |
| Notifications.Panel.SetTitle | src/components/NotificationsPanel.tsx:231 | the title input holds the typed value |
| Notifications.Panel.SetDateTime | src/components/NotificationsPanel.tsx:236 | the date/time input holds the typed value |
| Notifications.Panel.AddTask | src/components/NotificationsPanel.tsx:131-185 | a refused add changes nothing; a failed save keeps tasks and inputs; a saved one appends exactly one reminder with the entered title, keeps earlier tasks and clears both inputs; isAdding is false afterwards |
| Notifications.Panel.DeleteTask | src/components/NotificationsPanel.tsx:187-198 | only when the first task with that id is a reminder and the backend confirms are all tasks with that id removed; otherwise nothing changes |
| Notifications.Panel.ToggleShowAll | src/components/NotificationsPanel.tsx:272-277 | offered only for more than two tasks, it flips showAll |
| Notifications.Panel.VisibleTasks | src/components/NotificationsPanel.tsx:206 | a prefix of the tasks, at most two of them unless expanded |
| Notifications.AddThenDelete | src/components/NotificationsPanel.tsx:168-198 | deleting a newly added reminder whose id is new gives back the earlier list |
| MemoryMatch.DeckHasPairs | src/components/MemoryMatch.tsx:10-23 | the deck has twelve cards, each of the six fruits exactly twice and nothing else |
| MemoryMatch.Deck | src/components/MemoryMatch.tsx:23 | the deck before shuffling: the six fruits twice, as DeckHasPairs counts |
| MemoryMatch.AtMostTwoFaceUp | src/components/MemoryMatch.tsx:37-55 | at most two cards are face up and unmatched at any time |
| MemoryMatch.Game.constructor | src/components/MemoryMatch.tsx:13-20 | the mount effect deals the shuffled deck, as InitializeGame states |
| MemoryMatch.Game.InitializeGame | src/components/MemoryMatch.tsx:22-35 | twelve cards with ids 0..11 and the dealt values, all face down and unmatched; nothing flipped, nothing locked, no congratulations |
| MemoryMatch.Game.HandleFlip | src/components/MemoryMatch.tsx:37-55 | a locked board or a turned or matched card changes nothing; otherwise only that card turns up, a first card is recorded alone, and a second is recorded with the first, locks the board and schedules the check of that pair; no matched card is unmatched |
| MemoryMatch.Flipped | src/components/MemoryMatch.tsx:42 | the cards with card index turned face up |
| MemoryMatch.FlippedConsistent | src/components/MemoryMatch.tsx:42-50 | turning up a face-down unmatched card keeps the invariant: it joins the recorded pair, the board locks exactly on the second card, and no match changes |
| MemoryMatch.Game.CheckMatch | src/components/MemoryMatch.tsx:57-73 | the cards become Checked of the old cards, the pair is cleared and the board unlocked |
| MemoryMatch.Checked | src/components/MemoryMatch.tsx:59-65 | the cards after checkMatch: an equal pair matched, any other pair turned face down |
| MemoryMatch.CheckedConsistent | src/components/MemoryMatch.tsx:57-72 | checking the recorded pair keeps the invariant with nothing flipped, keeps values and matches, and the congratulations show exactly when every card is matched |
| Sudoku.StarterIsGrid | src/components/Sudoku.tsx:3-13 | the starter puzzle is 9x9 and holds only empty cells and numbers 1 to 9 |
| Sudoku.TrimStart | src/components/Sudoku.tsx:19 | parseInt skips exactly the leading white space |
| Sudoku.DigitRun | src/components/Sudoku.tsx:19 | parseInt reads the longest run of digits |
| Sudoku.ParseInt | src/components/Sudoku.tsx:19 | `parseInt` without a radix: leading white space, an optional sign, an optional 0x prefix and the longest run of digits, or NaN when there is none |
| Sudoku.Accepted | src/components/Sudoku.tsx:19-20 | an entry is accepted iff parseInt yields a number from 1 to 9, and then it is exactly parseInt's number |
| Sudoku.OneCharacterEntry | src/components/Sudoku.tsx:19-20 | a one-character entry is accepted iff it is a digit 1 to 9, and then it is that digit |
| Sudoku.LeadingWhiteSpaceIgnored | src/components/Sudoku.tsx:19 | white space before an entry changes neither parseInt nor acceptance |
| Sudoku.Change | src/components/Sudoku.tsx:18-24 | the grid after handleChange is again 9x9 |
| Sudoku.ChangeSetsOneCell | src/components/Sudoku.tsx:19-23 | a refused entry changes nothing; an accepted one sets exactly cell [row][col] and every other cell keeps its value |
| Sudoku.ChangeKeepsCellsInRange | src/components/Sudoku.tsx:19-22 | no entry empties a cell or stores a number outside 1..9 |
| Sudoku.CluesCanBeOverwritten | src/components/Sudoku.tsx:18-24 | no Sudoku rule is checked: the clue in the corner can be replaced by a second 8 in its row |
| Sudoku.CopyIsChange | src/components/Sudoku.tsx:21-22 | a copy that differs only by the accepted entry at [row][col] is the changed grid |
| Sudoku.Board.constructor | src/components/Sudoku.tsx:16 | the board is the starter array itself, holding the starter puzzle |
| Sudoku.Board.HandleChange | src/components/Sudoku.tsx:18-24 | the grid becomes Change of the old grid; a refused entry keeps the same array, an accepted one makes a fresh copy the grid, and the starter array is never written |
| Sudoku.Board.CopyWith | src/components/Sudoku.tsx:21-22 | a fresh 9x9 array equal to the old one except at [row][col], which holds the new value |
| Sudoku.Board.ResetGrid | src/components/Sudoku.tsx:26 | the board is the starter array again and holds the starter puzzle |
| Sudoku.JoinSnoc | src/components/Sudoku.tsx:32-35 | appending a token and a space extends the class string by that token |
| Sudoku.Append | src/components/Sudoku.tsx:32-35 | each `+=` keeps the string equal to the base classes followed by the tokens added so far |
| Sudoku.BorderTokens | src/components/Sudoku.tsx:32-35 | the border classes appended after the base ones, in the order of the four tests, whose meaning CellBorders states |
| Sudoku.SplitJoin | src/components/Sudoku.tsx:29-36 | a class string built from tokens reads back as exactly those tokens |
| Sudoku.GetCellClass | src/components/Sudoku.tsx:28-37 | the result is the base classes then the border classes, and read as a class list it is the base classes followed by exactly those border classes |
| Sudoku.ReadBack | src/components/Sudoku.tsx:28-36 | the base classes followed by tokens read back as the base classes then the tokens |
| Sudoku.CellBorders | src/components/Sudoku.tsx:32-35 | a thick left border iff col % 3 == 0, a thick top border iff row % 3 == 0, a right border iff col == 8, a bottom border iff row == 8, none twice |
| BrainQuiz.BankIsWellFormed | src/components/BrainQuiz.tsx:5-16 | ten questions, each with three options and an answer index among them |
| BrainQuiz.BankHasNoRepeats | src/components/BrainQuiz.tsx:5-16 | no question comes twice in the bank |
| BrainQuiz.Select | src/components/BrainQuiz.tsx:23-25 | the first four questions of the shuffled order, the question at place i being the one at position order[i], none twice |
| BrainQuiz.DrawQuiz | src/components/BrainQuiz.tsx:22-26 | the quiz is four different well-formed bank questions in shuffled order |
| BrainQuiz.Score | src/components/BrainQuiz.tsx:29-31 | the score is at most the number of answers |
| BrainQuiz.CorrectPositions | src/components/BrainQuiz.tsx:30 | the positions whose answer is the right index |
| BrainQuiz.ScoreCountsCorrect | src/components/BrainQuiz.tsx:29-31 | the score is the number of positions answered with the right index |
| BrainQuiz.ScoreAppend | src/components/BrainQuiz.tsx:30-35 | one more answer adds one to the score exactly when it is right |
| BrainQuiz.AllRightScoresAll | src/components/BrainQuiz.tsx:29-31 | answering every question right scores full marks |
| BrainQuiz.Quiz.CurrentScore | src/components/BrainQuiz.tsx:29-31 | 0 <= score <= number of answers <= 4 |
| BrainQuiz.Quiz.Done | src/components/BrainQuiz.tsx:28 | `done`: the index has reached the number of quiz questions; OnAnswer is offered only before that |
| BrainQuiz.Quiz.constructor | src/components/BrainQuiz.tsx:19-26 | a quiz drawn from the shuffled bank, nothing answered, not done |
| BrainQuiz.Quiz.OnAnswer | src/components/BrainQuiz.tsx:33-36 | offered only while not done, it appends exactly the answer and advances the index by one, so answers and index stay equal in length; the score grows by one exactly for a right answer |
| BrainQuiz.Quiz.Restart | src/components/BrainQuiz.tsx:72-75 | back to the first question with no answers and score 0, over the same questions |
| Breathing.AfterToggle | src/components/BreathingMeditation.tsx:70-75 | the button flips running and resets phase, size and countdown; starting also resets the step to 0 |
| Breathing.Initial | src/components/BreathingMeditation.tsx:6-9 | the first render: stopped, "Breathe In", resting size, countdown 3 |
| Breathing.NextCount | src/components/BreathingMeditation.tsx:23 | the countdown step 3, 2, 1, then 3 again, whose meaning CountdownCycles states |
| Breathing.PhaseOf | src/components/BreathingMeditation.tsx:29-42 | the label of each step: Breathe In, Hold, Breathe Out, Hold |
| Breathing.AfterPhaseTick | src/components/BreathingMeditation.tsx:26-45 | the phase interval on the display, whose meaning PhaseTickChangesSizeOnlyOnBreaths states |
| Breathing.AfterCountdownTick | src/components/BreathingMeditation.tsx:22-24 | the countdown interval on the display: only the countdown changes, by NextCount |
| Breathing.InitialConsistent | src/components/BreathingMeditation.tsx:6-9 | the first render is consistent |
| Breathing.CountdownCycles | src/components/BreathingMeditation.tsx:23 | the countdown stays within 1..3 and comes back after three ticks |
| Breathing.PhaseTickChangesSizeOnlyOnBreaths | src/components/BreathingMeditation.tsx:27-44 | a phase tick moves to step (step + 1) % 4 and resets the countdown to 3; the circle becomes large on breathing in and small on breathing out, and keeps its size on both holds |
| Breathing.StepsKeepConsistent | src/components/BreathingMeditation.tsx:22-45 | toggling and both ticks keep the step in 0..3, the label that of the step and the countdown in 1..3 |
| Breathing.CycleAfterStart | src/components/BreathingMeditation.tsx:16-45 | n phase ticks after starting, the step is n mod 4, the label is that step's, and the circle is resting before the first exhale and then alternates small and large |
| Breathing.CyclePeriod | src/components/BreathingMeditation.tsx:26-45 | after the first exhale the display repeats every four ticks |
| Breathing.Meditation.constructor | src/components/BreathingMeditation.tsx:6-9 | the initial display |
| Breathing.Meditation.Toggle | src/components/BreathingMeditation.tsx:70-75 | the new display is AfterToggle of the old one |
| Breathing.Meditation.CountdownTick | src/components/BreathingMeditation.tsx:22-24 | the new display is AfterCountdownTick of the old one |
| Breathing.Meditation.PhaseTick | src/components/BreathingMeditation.tsx:26-45 | the new display is AfterPhaseTick of the old one |
| VoiceChat.LowerAppend | src/components/VoiceChat.tsx:8 | lower-casing distributes over concatenation |
| VoiceChat.LowerIdempotent | src/components/VoiceChat.tsx:8 | lower-casing twice is lower-casing once |
| VoiceChat.LowerIgnoresCase | src/components/VoiceChat.tsx:8 | messages that differ only in letter case lower-case to the same string |
| VoiceChat.Lower | src/components/VoiceChat.tsx:8 | `toLowerCase` on the characters whose lower case holds an ASCII letter, whose properties the three lemmas above state |
| VoiceChat.Includes | src/components/VoiceChat.tsx:10 | includes is true iff the keyword occurs somewhere in the message |
| VoiceChat.FirstMatchFrom | src/components/VoiceChat.tsx:10-30 | the index of the first keyword group from i on with a keyword in the message, or the number of groups |
| VoiceChat.ReplyToLower | src/components/VoiceChat.tsx:10-32 | the if-chain on the lower-cased message, which ChainIsFirstMatch equates with the first-match table |
| VoiceChat.Reply | src/components/VoiceChat.tsx:7-33 | getOfflineBotReply: the if-chain on the lower-cased message, whose meaning the lemmas below state |
| VoiceChat.ChainIsFirstMatch | src/components/VoiceChat.tsx:7-33 | the if-chain gives the reply of the earliest group with a keyword present, or the default |
| VoiceChat.RepliesDiffer | src/components/VoiceChat.tsx:10-32 | the eight replies are pairwise different |
| VoiceChat.ReplyIsFixed | src/components/VoiceChat.tsx:7-33 | every reply is one of the eight fixed strings |
| VoiceChat.ReplyOfFirstMatch | src/components/VoiceChat.tsx:10-32 | the reply is the one at the index of the first matching group, the default if none |
| VoiceChat.ReplyIsFirstMatch | src/components/VoiceChat.tsx:10-30 | group n answers iff one of its keywords occurs in the lower-cased message and no keyword of an earlier group does |
| VoiceChat.GreetingWins | src/components/VoiceChat.tsx:10-12 | the greeting answers exactly the messages containing "hello" or "hi" |
| VoiceChat.DefaultWhenNoKeyword | src/components/VoiceChat.tsx:32 | the default reply answers exactly the messages with no keyword, the empty message included |
| VoiceChat.ReplyIgnoresCase | src/components/VoiceChat.tsx:8 | messages that differ only in letter case get the same reply |
| VoiceChat.HiInsideAWord | src/components/VoiceChat.tsx:10-12 | "hi" anywhere, inside a word too, brings the greeting ahead of every other keyword |
| VoiceChat.HiSurvivesLowering | src/components/VoiceChat.tsx:8-10 | a "hi" in the message is still there after lower-casing |
| VoiceChat.EmergencyGreeted | src/components/VoiceChat.tsx:10-30 | "This is an emergency" gets the greeting, not the emergency reply |
| TimeSlots.DecimalString | src/pages/dashboard.tsx:89 | `toString` of a number below 100 is its one or two decimal digits |
| TimeSlots.PadStart | src/pages/dashboard.tsx:89 | padStart keeps the string at the end and fills the front with zeros up to the width |
| TimeSlots.HourTextDigits | src/pages/dashboard.tsx:89 | an hour below 100 is written as exactly its two decimal digits |
| TimeSlots.HourText | src/pages/dashboard.tsx:89 | `hour.toString().padStart(2, "0")` |
| TimeSlots.Slot | src/pages/dashboard.tsx:89-90 | slot k: the mark of hour 7 + k/2 for even k, its half hour for odd k |
| TimeSlots.SlotsOfHour | src/pages/dashboard.tsx:88-90 | each hour's mark and half hour sit at indices 2(hour - 7) and the one after |
| TimeSlots.PushMark | src/pages/dashboard.tsx:89 | pushing an hour's mark extends the list built so far by the next slot |
| TimeSlots.PushHalf | src/pages/dashboard.tsx:90 | pushing a half hour, for every hour but the last, extends it by the next slot |
| TimeSlots.Options | src/pages/dashboard.tsx:84-93 | the list generateTimeOptions returns, whose meaning OptionsIncreasing, OptionsRange and HourMarksAndHalfHours state |
| TimeSlots.HourTextValue | src/pages/dashboard.tsx:89 | the two-digit hour reads back as the hour |
| TimeSlots.TimeText | src/pages/dashboard.tsx:89-90 | an hour followed by ":00" or ":30" is an "HH:MM" text that reads back as that time |
| TimeSlots.SlotMeaning | src/pages/dashboard.tsx:88-90 | slot k is an "HH:MM" text standing for 07:00 plus k half hours |
| TimeSlots.OptionsIncreasing | src/pages/dashboard.tsx:88-91 | 27 slots, every one "HH:MM" with minutes 00 or 30, strictly increasing in time, so no two are equal |
| TimeSlots.OptionsRange | src/pages/dashboard.tsx:86-90 | the first slot is "07:00", the last "20:00", and "20:30" is absent |
| TimeSlots.EndSlots | src/pages/dashboard.tsx:86-89 | the slots of the start hour and the end hour are "07:00" and "20:00" |
| TimeSlots.HourTextOf | src/pages/dashboard.tsx:89 | the two-digit hour, character by character |
| TimeSlots.NotHalfPastEight | src/pages/dashboard.tsx:87-90 | no slot is "20:30" |
| TimeSlots.HourMarksAndHalfHours | src/pages/dashboard.tsx:88-90 | exactly the even slots are hour marks, 14 of them, and the odd ones the 13 half hours |
| Dashboard.GenerateTimeOptions | src/pages/dashboard.tsx:84-93 | the loop returns exactly the 27 slots, in order |
| Dashboard.AppointmentUsername | src/pages/dashboard.tsx:61 | the user's name when a user with a non-empty name is known, otherwise the form's username field |
| Dashboard.HiddenUsername | src/pages/dashboard.tsx:155 | the hidden input holds the user's name, or "" before the profile is known |
| Dashboard.BookedUnderHiddenName | src/pages/dashboard.tsx:61 | with the hidden input, an appointment always carries a name: the user's, or the empty name before the profile is known |
| Doctor.GenerateTimeOptions | src/pages/doctor.tsx:47-56 | the page's own loop returns the same 27 slots in the same order as the dashboard's |
| Doctor.AppointmentUsername | src/pages/doctor.tsx:24 | the username prop when it is given and not empty, otherwise the form's username field |
| Doctor.HiddenUsername | src/pages/doctor.tsx:90 | the hidden input holds the prop, or "" without it |
| Doctor.BookedUnderHiddenName | src/pages/doctor.tsx:24 | with the hidden input, an appointment always carries a name: the prop, or the empty name without it |

## Left out

- The haversine distance `getDistanceFromLatLonInM` (src/components/geofence.tsx:206-222) is floating-point trigonometry. The watch callback takes the distance as an input instead.
- Every backend request is left out: geofence get/set/update-location, the SMS alert, reminders and appointments, the profile and appointment POSTs. Their answers are parameters where they change state; toasts and console output are left out.
- Browser APIs are left out: geolocation watch and clear, Notification permission (`enableNotifications`), speech recognition and synthesis, localStorage.
- Date parsing and formatting are left out (`new Date`, `formatDateTime`, `toISOString`, `toTimeString`).
  - Dates are integer millisecond stamps, or an invalid date.
  - The display field `time` of a task is not modelled.
- Notifications.Panel.AddTask: the saved reminder's date is taken in UTC and its time in local time, and that mix is not modelled. The saved stamp is a parameter.
- The random shuffles (`sort(() => Math.random() - 0.5)`) are parameters.
  - For the quiz, an order of the bank's ten positions.
  - For the memory game, any deal of the twelve cards with the right multiset of values.
  - That the source's shuffle is not uniform is not modelled.
- Timers and React scheduling are left out.
  - Each interval or timeout callback is a method call, made only when the source could make it (the breathing ticks only while running; the match check only with the recorded pair).
  - The relative timing of the breathing countdown and phase intervals is not modelled.
  - The stale-closure race in which a second position sample arrives before the watch is re-registered with the new `lastNotified` is not modelled.
  - The 2-second auto-reset after the congratulations is the environment calling `InitializeGame`.
- TicTacToe.Game.RunEffect: runs the corrected effect of the finding below. The source's order is RunEffectAsWritten, and the class uses the corrected one.
- Geofence.AlertsAreSpaced: it requires positive time stamps, because `!lastNotified` treats a stored 0 as never notified.
- VoiceChat.Lower: `toLowerCase` is modelled only for the characters whose lower case holds an ASCII letter (A-Z, U+0130, U+212A). Every other character is kept, which cannot change whether an ASCII keyword occurs.
- Sudoku.ParseInt: `parseInt` is modelled on unbounded integers, with sign, decimal digits and the 0x prefix. JavaScript's loss of precision on very long digit strings is not modelled; such numbers are outside 1..9 either way.
- TimeSlots.OptionsIncreasing: proves the slots increase in the time they stand for. That they also increase as strings is not stated.
- Sudoku.GetCellClass: the base classes are kept as one string and only read back as a list of words. The words inside them are not listed one by one.
- VoiceChat.GreetingWins: "hi" matches inside words ("this", "which"), as in the source; the model keeps that behaviour rather than matching whole words.
- Dashboard.AppointmentUsername and Doctor.AppointmentUsername: an empty name falls through to the form field, as `||` does; the model keeps that.
- All JSX rendering, routing and the pages and components outside the modelled ones are left out, since they are presentation.

## Findings

| source | as written | input that shows it | evidently intended | confidence | as-written member | corrected member |
|---|---|---|---|---|---|---|
| src/components/tictactoe.tsx:16-27 | The effect tests `!isXNext` before the full-board test. X moves first, so X also fills the ninth square, and O is then to move on a full board. `findBestMove` returns -1, nothing changes, and "Draw" is never set. | X at 0, 2, 3, 7, then X's ninth move at 8 on the board X,O,X,X,O,O,O,X,_ (O at 1, 4, 5, 6) | a full board without a winner is announced as a draw | not executed | TicTacToe.StuckOnFullBoard | TicTacToe.DrawAnnounced |
