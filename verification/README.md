# MISL-100BaseT switch firmware — console, I2C front end, boot and logger

This project models the control firmware of a four-port 100BaseT Ethernet switch board. The board is a Tiva C microcontroller that drives a KSZ8895 Ethernet controller. The model covers:

- **The console.** A login loop checks typed credentials against the user table. Once a user is in, every command line is split into words. The words are resolved against a forest of constant menu tables: first match wins at each level, parameters are bound into a twenty-slot array, and permissions gate execution. Help can be printed for any menu. (`Grammar`, `Interpreter`, `Authentication`, `ConsoleSession`, `DispatchProperties`.)
- **The I2C front end.** The slave interrupt handler assembles the bytes the master writes into packets for a queue. The manager task looks each packet's code up in the 80-record command table, binds the handler's parameters, announces the number of bytes it will return and sends the handler's answer. (`I2CTable`, `I2CManager`, `I2CSlave`.)
- **Start-up.** The default user table with its built-in root account, and the decisions that the EEPROM initialisation takes from the firmware-settings byte. It also covers the log flags, next log slot and user records it reads back. (`Boot`.)
- **The event logger.** Queued event codes are filtered by a 32-bit flag word, and a repeat of the last code is skipped. Each accepted code is written as a 5-byte entry (big-endian tick count, then the code) into a ring of EEPROM slots. (`EventLogger`.)
- **Small state machines in the console handlers.** These are:
  - the array search `FindIndex`;
  - the two-step `system reset`;
  - the progress bar;
  - the event-flag toggle menu;
  - the delete-users menu and the add-user dialogue;
  - the register decoder behind `system status` and `port fN status`.

  (`CommandFunctions`, `UserMenus`, `RegisterDecode`.)

Hardware access is reduced to parameters:
- bytes read from the Ethernet controller and the EEPROM;
- keys and lines typed on the UART;
- tick counts;
- the byte an I2C handler answers.

The text printed on the UART is modelled only where the firmware promises something about it: the help layout, the status-report layout and the outcome of a command line.

Stateful parts are imperative Dafny:
- The user table is an `array` where the firmware edits it in place: the add-user and delete-users handlers (`UserMenus`) and the user reload at start-up (`Boot.LoadUserDatabase`). The console session (`ConsoleSession.Console`) keeps the same table as a `seq` value, which it hands to the login check and the dispatcher and never changes.
- The console session, the logger task, the I2C receiver (its packet buffer an `array`), the reset flag and the progress counter are classes with `modifies` clauses.
- Each loop of the firmware is a `method` proved against a function that specifies it.

The modules are meant to be verified together:

    dafny verify --resource-limit 2000000 --verification-time-limit 0 --warn-contradictory-assumptions *.dfy

Where the firmware's comments and its code disagree, the model follows the code:
- **The I2C interrupt handler.** It clears its packet, index included, at the start of every interrupt, so each data byte is stored at index 0.
- **The global status report.** It decodes with the register table as listed, whose Fast Aging entry can never show "True" (see Findings); the corrected table is a separate report.
- **Help padding.** Help lines are padded to the longest fragment text exactly.
- **Status-report padding.** Status lines are padded to the longest description plus two.

## Model

| member | source | states |
|---|---|---|
| SystemTypes.Level | freertos_init.h:90-99 | The permission enumerators in declaration order: read-only is 0 and administrator 3, the privilege order used by the console. |
| SystemTypes.Truncate | interpreter_task.c:102 | A line read into a 16-byte buffer keeps its first 15 characters: a prefix of the line, the whole line when short enough. |
| SystemTypes.Add32 | event_logger.c:157 | A 32-bit unsigned sum: for every input the result is below 2^32 and congruent to the true sum modulo 2^32; it is the true sum when that fits, and the sum less 2^32 when one wrap suffices. |
| Authentication.Accepts | interpreter_task.c:127-130 | A slot with an empty username accepts nothing; a slot accepts only its own username, which is then non-empty, with its own password. |
| Authentication.FindUserIsFirstMatch | interpreter_task.c:126-147 | The credential scan answers the lowest slot whose username is non-empty and whose username and password both equal the typed pair, and answers nothing exactly when no slot accepts. |
| Authentication.FindUserFrom | interpreter_task.c:126-147 | A slot the scan from k answers lies in k..15 and accepts the typed pair. |
| Authentication.FindUser | interpreter_task.c:126-147 | A slot the full scan answers is one of the 16 and accepts the typed pair. |
| Authentication.CheckCredentials | interpreter_task.c:126-147 | The loop over all 16 slots returns the first accepting slot (FindUser). |
| Authentication.NextEntry | interpreter_task.c:92-103 | The line the prompt finally accepts is the first whose truncation is non-empty; empty lines re-prompt. |
| Authentication.ReadEntry | interpreter_task.c:92-118 | The prompt loop returns the truncated first non-empty line and the position after it, or nothing when the input runs out. |
| Authentication.LoginFrom | interpreter_task.c:79-151 | A login result names two input lines, the name line before the password line, whose truncations the chosen slot accepts; failures never decrease. |
| Authentication.Rounds | interpreter_task.c:92-118 | The rounds the dialogue reads when every pair is rejected: each a name line followed by a later password line, all within the input, from the given line on. |
| Authentication.LoginIsFirstAcceptedRound | interpreter_task.c:79-151 | The login dialogue from any line equals the first round, in reading order, whose pair the table accepts, with the rejected rounds before it counted as failures; it waits when none is accepted. |
| Authentication.FailuresCountRejectedRounds | interpreter_task.c:126-150 | The failure count is exactly the number of rounds read before the login, and the table rejected every one of them. The login is the next round, as the slot the table answers for it. Waiting means every round was rejected and counted. |
| Authentication.RejectedPairCounts | interpreter_task.c:148-150 | A pair no slot accepts costs one failure and the dialogue restarts after the two lines. |
| Authentication.AcceptedPairLogsIn | interpreter_task.c:126-143 | An accepted first pair logs in at once, with no failure, as the lowest accepting slot. |
| Authentication.Authenticate | interpreter_task.c:79-151 | The login loop returns the slot, failure count and lines consumed that LoginFrom specifies, or keeps waiting when input runs out. |
| Authentication.LoginRound | interpreter_task.c:92-150 | One round of the loop: it logs in as the slot LoginFrom names, with no new failure and the password line last consumed; or the input runs out and LoginFrom waits; or the pair is rejected and LoginFrom goes on after the password line with one more failure. |
| ConsoleSession.Console.Login | interpreter_task.c:79-151 | On success the accepting slot becomes the active user and the session is authenticated; the user table is unchanged. |
| ConsoleSession.Console.HandleLine | interpreter_task.c:155-308 | A command line is split into words and dispatched with the active user's permission; only the logout command ends the session. |
| ConsoleSession.Console.constructor | freertos_init.c:143 | A session starts unauthenticated, with no active user, over the given user table. |
| Boot.DefaultUsers | freertos_init.c:166-183 | The compiled-in table holds 15 empty slots and root in slot 15. |
| Boot.FreshBootLogin | freertos_init.c:166-183 | Before any user is loaded exactly root/root logs in, as slot 15. |
| Boot.PlanBoot | freertos_init.c:738-775 | The VLAN and user reloads are only ever planned as part of the configuration reload. |
| Boot.PlanByValue | freertos_init.c:730-968 | Bit 7 of the settings byte erases the chip. Bit 6 reloads configuration, log flags and slot. Bits 5 and 4 reload VLANs and users only under bit 6. Each is stated as a range of the byte's value. |
| Boot.BootWith | freertos_init.c:730-968 | Start-up keeps all 16 slots with root in slot 15. It reports success exactly when the VLAN reload did not abort, and without a completed user reload the table is the compiled-in one. |
| Boot.AbortedBootKeepsDefaultUsers | freertos_init.c:775-796 | A VLAN reload that fails part-way returns before the user reload: the table stays the compiled-in one and only root/root logs in. |
| Boot.ClampSlot | freertos_init.c:771-773 | A next-log slot below the log area is raised to its base; one inside it is kept. |
| Boot.RootSurvivesBoot | freertos_init.c:944-965 | Whatever the settings and stored records, slot 15 is still root and root/root still logs in after start-up. |
| Boot.ReloadedSlots | freertos_init.c:948-961 | After a user reload that was reached (the VLAN reload did not abort), slot i below 15 holds stored record i with no pending action. |
| Boot.LoadedUsers | freertos_init.c:948-961 | The reloaded table keeps all 16 slots. |
| Boot.SlotAfterBoot | freertos_init.c:766-773 | The next log slot never starts below the log area; without a reload the flags are 0 and the slot is the base. |
| Boot.SavedLogStateRestored | freertos_init.c:760-769 | Flags and a slot saved as four big-endian bytes each are restored unchanged by a reloading start-up. |
| Boot.LoadUserDatabase | freertos_init.c:948-963 | The loop loads the first 15 slots from the stored records in place and leaves the root slot untouched. |
| EventLogger.FlipBitExact | command_functions.c:2037-2044 | Toggling bit k inverts that bit and keeps every other one. |
| EventLogger.Ordinal | event_logger.h:59-80 | Each logger code numbers a bit below 10, within the 32 flag bits. |
| EventLogger.FlipBitTwice | command_functions.c:2037-2044 | Toggling the same bit twice gives the flag word back. |
| EventLogger.FlipBitBounded | command_functions.c:2037-2044 | Toggling a bit below w keeps a w-bit word within w bits. |
| EventLogger.JoinSplit | event_logger.c:149 | The four big-endian bytes of a 32-bit tick count read back as that count. |
| EventLogger.Split32 | event_logger.c:149 | A 32-bit value splits into four bytes, each below 256. |
| EventLogger.Entry | event_logger.c:148-151 | A log entry is 5 bytes long. |
| EventLogger.SplitJoin | freertos_init.c:760-763 | Four bytes joined into a 32-bit value split back into the same bytes. |
| EventLogger.StoreContents | event_logger.c:152-156 | Writing bytes from an address changes exactly those addresses, to those bytes. |
| EventLogger.NextSlotAsWritten | event_logger.c:157-163 | As written, the next slot never passes the log base plus 400 bytes. |
| EventLogger.NextSlot | event_logger.c:157-163 | With the corrected wrap, the next entry always fits below the end of the 400-entry region. |
| EventLogger.LogEventWith | event_logger.c:139-165 | One queued code never changes the flags. A disabled or repeated code changes nothing. An enabled new code becomes the last code, and every written address stays written. |
| EventLogger.LogEventAsWritten | event_logger.c:139-165 | As written, a logged code leaves the next slot at most the log base plus 400 bytes. |
| EventLogger.LogEvent | event_logger.c:139-165 | With the corrected wrap, a pointer on the ring stays on the ring after any code. |
| EventLogger.SkippedCodeChangesNothing | event_logger.c:142-145 | A disabled code, or one equal to the last code written, writes nothing and changes no state. |
| EventLogger.WrittenEntry | event_logger.c:142-165 | An enabled new code writes exactly its 5-byte entry at the current slot, keeps other bytes, becomes the last code and advances the slot; the tick count reads back. |
| EventLogger.NextSlotStaysInRing | event_logger.c:157-163 | With the corrected wrap, a ring slot advances to a ring slot and every entry fits in the 400-entry region. |
| EventLogger.AdvanceFromBase | event_logger.c:157-163 | With the corrected wrap, the k-th advance from the base is entry k for every k below 400. |
| EventLogger.RingHoldsAllEntries | event_logger.c:157-163 | With the corrected wrap, 400 entries are written before the pointer returns to the base. |
| EventLogger.AdvanceFromBaseAsWritten | event_logger.c:157-163 | As written, the k-th advance is entry k for k up to 80. |
| EventLogger.AsWrittenRingHolds81Entries | event_logger.c:157-163 | As written, the pointer returns to the base after 81 entries, not 400. |
| EventLogger.Logger.Write | event_logger.c:152-156 | The byte-by-byte write stores the bytes from the address and touches nothing else. |
| EventLogger.Logger.constructor | event_logger.c:118-125 | The logger starts with the given flags and slot, an arbitrary last code, and nothing written. |
| EventLogger.Logger.LogAsWritten | event_logger.c:139-166 | One pass of the logger loop with the firmware's wrap test. |
| EventLogger.Logger.Log | event_logger.c:139-166 | One pass of the logger loop over the full 400-entry ring. |
| EventLogger.Logger.Drain | event_logger.c:134-170 | The logger loop over the received codes, in queue order. |
| EventLogger.RepeatedCodeWrittenOnce | event_logger.c:144-165 | The same code queued twice in a row is written once. |
| EventLogger.LogAllStaysInRing | event_logger.c:157-163 | From a ring slot, any number of logged codes leaves the pointer on the ring. |
| CommandFunctions.FindIndex | command_functions.c:2858-2865 | The search returns the first index below size holding the value, or size when none does. |
| CommandFunctions.ResetReply | command_functions.c:1907-1917 | The handler restarts exactly when confirmation was already asked for. |
| CommandFunctions.ResetNeedsTwoCalls | command_functions.c:1907-1917 | From power-on the first `system reset` only asks for confirmation and every later one restarts. |
| CommandFunctions.ResetReplies | command_functions.c:1907-1917 | n calls produce n replies. |
| CommandFunctions.ResetCommand.constructor | command_functions.c:129 | The confirmation flag starts cleared. |
| CommandFunctions.RepliesOnceIssued | command_functions.c:1907-1917 | Once confirmation was asked for, every call restarts. |
| CommandFunctions.ResetCommand.Run | command_functions.c:1907-1917 | The handler answers false while asking and true once restarting, and sets the confirmation flag. |
| CommandFunctions.Half | command_functions.c:2770 | C integer halving rounds toward zero for negative values. |
| CommandFunctions.Passes | command_functions.c:2763-2777 | A counting loop from 0 to n runs n times, and not at all for n <= 0. |
| CommandFunctions.ProgressBar.constructor | command_functions.c:2739-2744 | The bar starts with the stored percentage given (CreateProgressBar gives 0). |
| CommandFunctions.UpdateBar | command_functions.c:2753-2786 | After an update the stored percentage is either the old one or the new value. |
| CommandFunctions.FullBarFrozen | command_functions.c:2755-2757 | A full bar ignores every action except Fill. |
| CommandFunctions.BarStoresNewValue | command_functions.c:2758-2784 | Every update that is not ignored stores the new value; an error fill keeps the old one and draws the error bar. |
| CommandFunctions.BarKeepsItsWidth | command_functions.c:2760-2777 | A reset draws marks and blanks filling all 50 cells; an increment fills the cells right of the marks already drawn. |
| CommandFunctions.MarksAddUp | command_functions.c:2769-2777 | For rising percentages the marks drawn add up to half the last value minus half the first. |
| CommandFunctions.AdvanceAtFull | command_functions.c:2755-2757 | A bar at 100 draws nothing more and keeps its value. |
| CommandFunctions.ProgressBar.Update | command_functions.c:2753-2786 | The update counts the marks and blanks its loops draw and stores the value the specification gives. |
| CommandFunctions.EventsKey | command_functions.c:2019-2064 | A closed menu never reopens, and the flag word changes only on Enter while the menu is open. |
| CommandFunctions.CursorStaysOnMenu | command_functions.c:2021-2035 | Arrow keys keep the cursor on the menu and move it by at most one row; other keys leave it. |
| CommandFunctions.MoveCursor | command_functions.c:2022-2035 | A cursor on the menu stays on it. |
| CommandFunctions.EnterFlipsHighlightedBit | command_functions.c:2036-2045 | Enter flips exactly the highlighted event's bit and moves nothing. |
| CommandFunctions.EventsMenuInvariant | command_functions.c:1990-2066 | Over any keys the cursor stays on a named event, and bits past the named events never change. |
| CommandFunctions.ExitKeepsToggles | command_functions.c:2047-2054 | Leaving with E does not undo toggles, which were made on the live flag word. |
| CommandFunctions.EventsMenuKeepsWord | command_functions.c:2036-2045 | A flag word within 32 bits stays within 32 bits. |
| CommandFunctions.ManageEvents | command_functions.c:1981-2066 | The menu counts the named event kinds, starts on the first row and applies keys to the logger's flag word until E or C; nothing else of the logger changes. |
| CommandFunctions.ClosedMenuReadsNothing | command_functions.c:2047-2064 | Once E or C is read, later keys are not read. |
| UserMenus.NamedAmong | command_functions.c:2362-2375 | The number of named slots among the first n is at most n, and at least one when slot 0 is named. |
| UserMenus.DeleteMenuKeepsAccounts | command_functions.c:2386-2459 | Whatever is typed, no account changes, the root slot is untouched and only reachable rows are marked. |
| UserMenus.ConfirmDeletions | command_functions.c:2444-2453 | Confirmation keeps all 16 slots. |
| UserMenus.UsersKey | command_functions.c:2386-2457 | A key keeps the table's 16 slots and the cursor on the menu. |
| UserMenus.UsersRun | command_functions.c:2386-2457 | Any run of keys keeps the table's 16 slots and the cursor on the menu. |
| UserMenus.NoConfirmNoActions | command_functions.c:2386-2436 | Keys without a confirmation leave every pending action as it was. |
| UserMenus.ConfirmSchedulesNamedSlots | command_functions.c:2437-2457 | Confirming schedules marked slots for deletion and other named slots for an update; unnamed unmarked slots and root are unchanged. |
| UserMenus.DeleteUsersMenu | command_functions.c:2346-2460 | An empty table is refused unchanged; otherwise the table after the keys is the menu run's, and the reply says whether the menu closed. |
| UserMenus.MarkForDeletion | command_functions.c:2444-2453 | The confirmation loop applies the deletion/update rule to the 15 addable slots in place. |
| UserMenus.UsersClosedReadsNothing | command_functions.c:2428-2457 | Once closed, the menu ignores the rest of the keys. |
| UserMenus.SlotAbove | command_functions.c:2172-2184 | The downward scan stops one past the highest slot with a first name, or at 0. |
| UserMenus.FindAvailableSlot | command_functions.c:2172-2184 | The scan loop returns the slot AvailableSlot specifies. |
| UserMenus.AvailableSlot | command_functions.c:2164-2184 | The slot found for a new user is at most 15. |
| UserMenus.AcceptLine | command_functions.c:2189-2289 | A typed line either leaves the dialogue as it was, re-prompting, or moves it exactly one prompt on. |
| UserMenus.Drafting | command_functions.c:2189-2293 | The dialogue never gets past more prompts than lines were typed. |
| UserMenus.DraftingValid | command_functions.c:2189-2289 | No prompt is passed with an empty, over-long or duplicate username, an empty name or password, or a permission outside 0-3. |
| UserMenus.AddUserWith | command_functions.c:2150-2298 | The add-user handler keeps all 16 slots. |
| UserMenus.AddUserPlacesRecord | command_functions.c:2150-2298 | The handler refuses exactly when slot 14 has a username. Otherwise the finished record lands one past the highest slot with a first name and nothing else changes. The record is fresh, non-empty, unmarked and tagged Add. The slot is root's exactly when slot 14 has a first name. |
| UserMenus.IsTaken | command_functions.c:2205-2211 | The duplicate check answers whether some addable slot holds the username. |
| UserMenus.AddUser | command_functions.c:2150-2298 | The handler's table and reply are those AddUserWith specifies. |
| UserMenus.DraftingCompleteStays | command_functions.c:2289-2293 | A finished dialogue reads no more lines. |
| Grammar.StaticParam | interpreter_task.c:224-227 | Static slot l of a fragment is its initialiser entry, or NULL past the list. |
| Grammar.GrammarWellFormed | interpreter_task.h:392-640 | Every menu is sentinel-terminated within 50 entries. A fragment links a child exactly when it does not terminate. User-provided fragments bind one slot and no fragment spells "?". Every command takes at most 5 fragments and binds at most 4 slots. |
| Interpreter.WordsFrom | interpreter_task.c:157-174 | The words from a position are non-empty and contain no space. |
| Interpreter.Words | interpreter_task.c:157-174 | Every word of a line is non-empty and holds no space. |
| Interpreter.WordsKeepCharacters | interpreter_task.c:157-174 | Splitting on spaces keeps every non-space character in order. |
| Interpreter.WordsOfJoin | interpreter_task.c:157-174 | Splitting words joined by single spaces gives the words back. |
| Interpreter.Tokenize | interpreter_task.c:157-174 | The tokenising loop yields the space-separated words and one warning per word past the 126th. |
| Interpreter.Bind | interpreter_task.c:215-228 | A matched fragment binds paramsRequired slots: the word itself for a user-provided fragment, else its static parameters. |
| Interpreter.Padded | interpreter_task.c:159 | The handler's array holds the bound slots then NULLs, twenty in all. |
| Interpreter.Longest | interpreter_task.c:264-273 | The longest fragment text bounds every listed text and is attained by one. |
| Interpreter.HelpText | interpreter_task.c:260-301 | Help has one line per listed fragment plus the elevated-privilege footer exactly when some fragment needs more privilege. |
| Interpreter.HelpColumnsAligned | interpreter_task.c:276-294 | Every help text starts one column past the longest fragment text; a restricted fragment's * is taken back by a backspace. |
| Interpreter.RenderHelp | interpreter_task.c:260-301 | The help loops produce HelpText. |
| Interpreter.HelpLeadWidth | interpreter_task.c:276-294 | Every help lead, with or without the restricted-command star and backspace, is one column wider than the longest text. |
| Interpreter.LongestText | interpreter_task.c:264-273 | The first help loop computes the longest listed text. |
| Interpreter.PrintHelpLines | interpreter_task.c:276-297 | The second help loop prints one line per fragment and notes whether any is restricted. |
| Interpreter.Interpret | interpreter_task.c:183-308 | An empty line gives no output; otherwise the outcome is the walk from the root menu. |
| Interpreter.Dispatch | interpreter_task.c:183-308 | A line gets no response exactly when it has no words. A handler that runs is given exactly twenty slots, and an incomplete line echoes at most the words typed. |
| Interpreter.Walk | interpreter_task.c:184-258 | Each depth of the walk reaches a response, never the no-input one. A handler it runs gets twenty slots, and an echo is never longer than the line. |
| Interpreter.Scan | interpreter_task.c:185-212 | The scan of a menu from any entry reaches a response, with the same bounds on the slots and the echo. |
| Interpreter.Take | interpreter_task.c:212-258 | A matched fragment, bound and then run or descended into, reaches a response, with the same bounds on the slots and the echo. |
| Interpreter.Matches | interpreter_task.c:212 | A word that matches is never the help request "?"; a user-provided fragment matches every other word present. |
| Interpreter.WalkMenus | interpreter_task.c:184-307 | The nested search over a well-formed grammar computes the walk: first match, binding, then run, descent, help or error. |
| Interpreter.Descends | interpreter_task.c:252-258 | A matched non-terminating fragment continues the walk in its child menu, well formed one level down, with its slots bound. |
| Interpreter.SaveParams | interpreter_task.c:215-229 | The parameter copy loops append the fragment's slots to the array. |
| Interpreter.BindSlots | interpreter_task.c:215-229 | Binding a matched fragment advances the slot count by its parameter count and appends its slots. |
| Interpreter.FindFragment | interpreter_task.c:185-212 | The inner loop stops at the first entry that is the sentinel, matches, or answers a help request. |
| Interpreter.Conclude | interpreter_task.c:188-301 | The end of the walk: not recognised, incomplete, too many words, unauthorised, executed, or help. |
| DispatchProperties.DispatchAlwaysAnswers | interpreter_task.c:184-307 | Every line gets a defined outcome: the walk never runs off a table or follows a NULL child, and a handler sees at most four bound slots. |
| DispatchProperties.MorePrivilegeKeepsExecution | interpreter_task.c:231-247 | A command that runs for a user runs, with the same slots, for every more privileged user. |
| DispatchProperties.UnauthorizedOnlyForLackOfPrivilege | interpreter_task.c:236-238 | A refused line runs for an administrator, who is never refused. |
| DispatchProperties.ShapeErrorsIgnoreUser | interpreter_task.c:188-235 | Unknown, incomplete and over-long lines are rejected the same way for every user. |
| DispatchProperties.FirstMatchTaken | interpreter_task.c:185-212 | The walk takes the first entry matching the word; earlier non-matching entries are passed over. |
| DispatchProperties.LineEndsInsideMenu | interpreter_task.c:188-210 | A line that runs out inside a menu is incomplete, or unrecognised at the root. |
| DispatchProperties.RootDescends | interpreter_task.h:632-640 | "port", "system" and "config" lead into their menus. |
| DispatchProperties.PortEnableBindsInOrder | interpreter_task.h:565-588 | "port f0 enable" runs the bit-clear handler with the port base 0x40, then Port Control 6, bit 3 and the message. |
| DispatchProperties.VLANMenuReached | interpreter_task.h:568-584 | "port f1 vlan" binds the port base 0x30 and leads into the VLAN menu. |
| DispatchProperties.PortOptionsReached | interpreter_task.h:582-588 | "port f1" leads into the port options with the port base 0x30 bound. |
| DispatchProperties.VLANLiteralBeforeWildcard | interpreter_task.h:551-557 | "enable" after "vlan" runs the enable handler, not the vlan-id wildcard. |
| DispatchProperties.VLANWildcardBindsWord | interpreter_task.h:551-557 | Any other word after "vlan" is bound as the VLAN id. |
| DispatchProperties.ResetNeedsModifySystem | interpreter_task.h:497 | A read-only user is refused "system reset"; a ModifySystem user runs it. |
| DispatchProperties.GlobalFeatureLeavesNullSlot | interpreter_task.h:493 | The global feature switches declare three slots but supply two, so the third slot is NULL. |
| DispatchProperties.ConfigDeleteBindsEmptyString | interpreter_task.h:530 | "config delete" binds the empty string. |
| DispatchProperties.IncompleteLineEchoed | interpreter_task.c:195-210 | Stopping inside the grammar echoes the words so far. |
| DispatchProperties.TrailingWordRejectedFirst | interpreter_task.c:232-238 | A word after a terminating fragment is rejected before permissions are checked. |
| DispatchProperties.HelpForCurrentMenu | interpreter_task.c:260-301 | "?" after a word shows the help of the menu that word leads to. |
| I2CTable.MappingAt | i2c_task.h:113-279 | The table has 80 records, and record 16b+k is record k of block b. |
| I2CTable.PortBlock | i2c_task.h:142-172 | A port block has 16 records. |
| I2CTable.Block | i2c_task.h:113-279 | Every block has 16 records. |
| I2CTable.SystemRecord | i2c_task.h:117-138 | Codes 0x00-0x0F: only 0x00 takes argument bytes, three; 0x02 streams; 0x00, 0x01 and 0x03 return one byte; the rest are placeholders. |
| I2CTable.PortRecord | i2c_task.h:142-172 | In a port block, codes up to 0xC bind port, control register and bit and return one byte; 0xD returns two; the rest are placeholders. |
| I2CTable.MappingsIndexedByCode | i2c_task.h:113-279 | Every record sits at the index equal to its own command code. |
| I2CTable.ParameterCountsFit | i2c_task.h:113-279 | Every record's static and custom parameters fit, at most three, and the static list matches its count. |
| I2CTable.OnlyControllerAccessTakesArguments | i2c_task.h:117 | Only code 0x00 expects argument bytes. |
| I2CTable.QuickPortCommands | i2c_task.h:142-271 | The quick port commands bind the port's register address, a control register and a bit, and return one byte. |
| I2CTable.PortOneOnClearsBitThree | i2c_task.h:142 | Code 0x10 clears bit 3 of Port Control 6 at port address 0x40. |
| I2CTable.ReturnCounts | i2c_task.h:113-279 | The count each code announces: 0xFF only for the download, then 1, 0 or 2 by block and position. |
| I2CManager.Serve | i2c_task.c:83-119 | A packet is dropped exactly when its code is 0x50 or more, and refused exactly when the record at its code holds another code. A served packet calls that record's handler and sends its return count first, then at most one byte more. |
| I2CManager.TaskServe | i2c_task.c:76-125 | With the firmware's table, a packet is served exactly when its code is below 0x50 and dropped otherwise: the code check never rejects a table code. |
| I2CManager.BoundParameters | i2c_task.c:84-103 | The handler's array: static bytes, then the argument bytes after the code, then zeros. |
| I2CManager.HandlerResult | i2c_task.c:160-162 | The placeholder handler answers 0. |
| I2CManager.MappingsFit | i2c_task.h:113-279 | The firmware's table is indexable by every code below 0x50 and each record fits the parameter array. |
| I2CManager.BindParameters | i2c_task.c:88-103 | The gathering loops fill the array that BoundParameters specifies. |
| I2CManager.ServePacket | i2c_task.c:83-123 | The manager's work on one packet equals Serve. |
| I2CManager.ServeQueueInOrder | i2c_task.c:76-125 | The k-th service is the k-th packet's: packets are served one by one, in queue order. |
| I2CManager.ServeQueue | i2c_task.c:76-125 | A queue of packets gets one service per packet. |
| I2CManager.ServeAll | i2c_task.c:76-125 | The manager loop serves each queued packet in turn. |
| I2CManager.AnnounceThenReply | i2c_task.c:112-119 | The return count is sent first; the handler's byte follows exactly when that count is 1. |
| I2CManager.ControllerAccessBindsArguments | i2c_task.c:97-103 | Code 0x00 passes its three argument bytes, in order, as the handler's first parameters. |
| I2CManager.PortOneOnCallsClearBit | i2c_task.c:89-119 | Code 0x10 calls the bit-clear handler with 0x40, 0xD and 3, whatever else the packet holds. |
| I2CManager.PlaceholderAnswersZero | i2c_task.c:112-119 | A placeholder that announces one byte sends 1 then 0. |
| I2CSlave.Completes | freertos_init.c:670-671 | A code past the 80-record table never completes a packet; a code that takes no argument bytes completes at once. |
| I2CSlave.StepAsWritten | freertos_init.c:640-701 | One interrupt of the handler as written: a halted handler stays as it is; otherwise the buffer keeps its 50 bytes and the index ends at 0 or 1. The queue gains at most one packet and keeps the ones before it. |
| I2CSlave.Step | freertos_init.c:655-689 | One interrupt of the accumulating receiver: a halted receiver stays as it is, the buffer keeps its 50 bytes, and an index within the buffer stays within it. The queue gains at most one packet and keeps the ones before it. |
| I2CSlave.Enqueue | freertos_init.c:675-685 | Queuing appends the packet; a full queue hangs the handler. |
| I2CSlave.Zeros | freertos_init.c:642 | The zero-initialised packet buffer: all bytes 0. |
| I2CSlave.Run | freertos_init.c:640-701 | Any run of interrupts keeps the receiver's buffer size and index in range. |
| I2CSlave.StepAsWrittenQueues | freertos_init.c:640-701 | One interrupt of the handler as written queues nothing or a single byte taken as a whole command. |
| I2CSlave.AsWrittenQueuesLoneBytes | freertos_init.c:640-701 | Every packet the handler as written queues is a single byte at index 0. |
| I2CSlave.AsWrittenNeverQueuesControllerAccess | freertos_init.c:644-671 | As written, no queued packet ever carries code 0x00. |
| I2CSlave.AsWrittenSplitsControllerAccess | freertos_init.c:644-688 | As written, the frame 0x00 a b c queues a, b and c as separate commands and nothing for 0x00. |
| I2CSlave.DataStep | freertos_init.c:661-688 | With the accumulating receiver, a data byte is stored at the index; the packet is queued when the code's argument count is reached. |
| I2CSlave.FrameQueuedOnce | freertos_init.c:655-689 | With the accumulating receiver, a whole frame queues exactly one packet holding its bytes. |
| I2CSlave.FeedFrame | freertos_init.c:655-689 | Feeding the rest of a frame to an accumulating receiver holding its prefix queues exactly one packet, the frame. |
| I2CSlave.ControllerAccessFrameServed | i2c_task.c:83-123 | End to end, with the accumulating receiver, 0x00 a b c reaches the controller-access handler with a, b and c, and 1 then its answer are sent. |
| I2CSlave.Slave.Send | freertos_init.c:675-685 | Queuing the current packet updates the receiver as Enqueue says. |
| I2CSlave.Slave.constructor | freertos_init.c:642 | The receiver starts with a zero buffer, index 0, an empty queue, running. |
| I2CSlave.Slave.InterruptAsWritten | freertos_init.c:640-701 | The interrupt handler as written, in place, follows StepAsWritten. |
| I2CSlave.Slave.Interrupt | freertos_init.c:655-693 | The accumulating handler, in place, follows Step. |
| I2CSlave.Slave.Receive | i2c_task.c:81 | The manager's receive takes the oldest packet, if any. |
| RegisterDecode.FirstMatch | command_functions.c:1673-1691 | The value search finds the first listed value equal to the masked byte, or none. |
| RegisterDecode.OptionLine | command_functions.c:1669-1690 | A decoded line starts with a tab and ends with a newline, and is longer than the description plus tab and colon. |
| RegisterDecode.ValueColumnAligned | command_functions.c:1669-1690 | A decoded line is the tab, description, colon and blanks up to the value column, then the first matching value's name; without a match, the newline alone. |
| RegisterDecode.MatchedLine | command_functions.c:1669-1690 | A matched line is the padded description up to the value column, then the value name and a newline. |
| RegisterDecode.Report | command_functions.c:1640-1694 | The report has exactly one line per option of the table. |
| RegisterDecode.ReportLayout | command_functions.c:1658-1693 | Option o of register r is line OptionsBefore(r)+o, decoded from the byte read at that register's address. |
| RegisterDecode.ReportLength | command_functions.c:1658-1693 | The report has one line per option. |
| RegisterDecode.LongestDescription | command_functions.c:1643-1652 | The first loop nest finds the longest option description. |
| RegisterDecode.LongestOption | command_functions.c:1646-1651 | The register's longest description bounds each of its first n descriptions. |
| RegisterDecode.Longest | command_functions.c:1643-1652 | The table's longest description bounds every description of its first n registers. |
| RegisterDecode.FindValue | command_functions.c:1673-1691 | The value loop returns FirstMatch. |
| RegisterDecode.DecodeOption | command_functions.c:1669-1690 | One option's line is OptionLine. |
| RegisterDecode.ShowStatus | command_functions.c:1640-1694 | The report loops produce Report for any table and register reader. |
| RegisterDecode.ShowPortStatus | command_functions.c:1640-1694 | The port report reads the port registers at the port base plus their offsets. |
| RegisterDecode.ShowGlobalStatus | command_functions.c:1702-1756 | The global report decodes the registers at their own addresses with the table as listed, Fast Aging included as written. |
| RegisterDecode.ShowGlobalStatusCorrected | command_functions.c:1702-1756 | The same report with Fast Aging listed like every other one-bit option. |
| RegisterDecode.TablesTerminated | interpreter_task.h:702-813 | Every table leaves room for its null terminators. |
| RegisterDecode.PortOptionWidths | interpreter_task.h:762-813 | The longest description of each port register. |
| RegisterDecode.PortReportWidth | interpreter_task.h:762-813 | The port report's value column sits 37 characters after the tab: the longest description (35) plus two. |
| RegisterDecode.GlobalOptionWidths | interpreter_task.h:702-760 | The longest description of each global register. |
| RegisterDecode.GlobalReportWidth | interpreter_task.h:702-760 | The global report's value column sits 26 characters after the tab, with the table as listed and as corrected. |
| RegisterDecode.ListedValueShown | command_functions.c:1673-1691 | A value within its mask is shown for the byte equal to it unless an earlier entry lists the same value. |
| RegisterDecode.TablesWithinMasks | interpreter_task.h:702-813 | With Fast Aging corrected, every listed value lies within its option's mask. |
| RegisterDecode.FastAgingNeverTrue | interpreter_task.h:732 | As written, Fast Aging shows "False" when bit 1 is set and nothing when it is clear; "True" never appears. |
| RegisterDecode.FastAgingDecodes | interpreter_task.h:732 | Corrected, Fast Aging shows "True" exactly when bit 1 is set and "False" otherwise. |
| RegisterDecode.GlobalOptionCounts | interpreter_task.h:702-760 | With either Fast Aging entry, the global report has two Switch Information lines before Global Control 1 and 15 lines in all. |
| RegisterDecode.GlobalFastAgingLine | interpreter_task.h:702-736 | With either Fast Aging entry, line 7 of the 15-line global report is the Fast Aging line decoded from the byte at 0x03. |
| RegisterDecode.FastAgingLineText | interpreter_task.h:732 | As listed, the Fast Aging line reads "False" when bit 1 is set and shows no value otherwise; corrected, it reads "True" when bit 1 is set and "False" otherwise, in the 26-character column. |
| RegisterDecode.FastAgingReportLine | interpreter_task.h:732 | The global report as the firmware prints it never shows Fast Aging as "True": line 7 reads "False" exactly when fast aging is on. The corrected report shows "True" then. |

## Left out

- Hardware drivers are parameters or left out: UART I/O, SSI transfers to the EEPROM and the Ethernet controller, and I2C bus control. So are FreeRTOS queues, semaphores, delays and tick counts, the watchdog and the LEDs.
- The console handlers other than the ones modelled (VLAN table, MAC tables, cable diagnostics, EEPROM and register access, saving the configuration) are named by `Grammar.Handler`. Their effects are not part of this model. The I2C handlers' answers are an input.
- The VLAN table load and the switch-configuration load in the EEPROM initialisation are left out. Only the decisions and the log and user reloads are modelled.
- Interpreter.Matches: when a menu is scanned past the last word, the firmware compares a fragment text with a NULL word, which is undefined in C. The model treats that as no match, so the scan reaches the sentinel and reports an incomplete line.
- Keys typed after the event menu or the delete-users menu has closed are not read by the model (`ClosedMenuReadsNothing`, `UsersClosedReadsNothing`).
- UserMenus.DeleteUsersMenu: the firmware's cursor indexes slots 0..total-1 directly, not the n-th named slot. The model keeps that.
- UserMenus.AddUserPlacesRecord: the firmware overwrites the root slot when slot 14 has a first name but no username. The model keeps that, and the contract states when it happens.
- UserMenus.IsTaken: the firmware checks duplicates only over slots 0-14, not against root. The model keeps that.
- CommandFunctions.ProgressBar.Update: Decrement behaves like Increment, as in the firmware.
- CommandFunctions.ResetCommand.Run: the restart (`SysCtlReset`) is modelled as an outcome. The machine reset itself is not.
- EventLogger.Logger.constructor: the last-code variable is never initialised in the firmware. It is modelled as a constructor argument.
- Boot.BootWith: the stored permission byte is cast to the enumeration without a check. The model only accepts the four valid levels, so the reload of an out-of-range byte is not captured.
- Boot.LoadedUsers: the EEPROM addresses of the user records (base + 65 per user) are not modelled; the records are an input in slot order.
- RegisterDecode: masks and values are modelled as `bv8`. The firmware declares them `uint32_t` but compares them with a masked `uint8_t`, and every listed constant fits in a byte.
- RegisterDecode.ShowStatus: trailing all-zero register entries are still read, but their empty option lists print nothing. The model reads only the listed registers.
- I2CSlave.Step: the firmware stores a data byte at the index first and only then resets an index above 50 (the buffer size) to 0 (freertos_init.c:663-669), so indexes 50 and 51 would be written past the 50-byte packet. The accumulating receiver resets an index of 50 or more to 0 before the write instead, because its 50-element buffer has no place for those two out-of-bounds writes. The handler as written never gets there: its index restarts at 0 on every interrupt.
- I2CSlave.Slave.Interrupt: the in-place receiver wraps the same way as I2CSlave.Step, before the write at an index of 50 or more.
- I2CSlave.Completes: a code at or past 0x50 reads a record beyond the 80-entry table in the firmware. The model treats such a code as never complete.
- I2CManager.ServePacket and I2CManager.ServeAll take the command table as a parameter; the firmware's manager uses I2C_MAPPINGS (`TaskServe`).
- EventLogger.LOG_TYPE_NAMES: the event menu counts the 10 named log types; the other 22 entries of the 32-entry name table are null.

## Findings

| source | as written | input that shows it | evidently intended | confidence | as-written member | corrected member |
|---|---|---|---|---|---|---|
| freertos_init.c:644 | The interrupt handler clears its static packet, index included, at every interrupt, so each data byte is stored at index 0 and taken as a command code. | Master writes 0x00 0x01 0x02 0x03 (controller access with three arguments): three one-byte packets 0x01, 0x02, 0x03 are queued and 0x00 never is. | The packet accumulates between START and the last argument byte, and one packet carrying all four bytes is queued. | high (not executed) | I2CSlave.AsWrittenSplitsControllerAccess | I2CSlave.ControllerAccessFrameServed |
| event_logger.c:157 | The wrap test compares the next slot with the log base plus MAX_LOG_ENTRIES (400) bytes, not 400 entries of 5 bytes. | 82 distinct enabled events logged from the base: the 82nd overwrites the first entry. | The ring holds MAX_LOG_ENTRIES entries (2000 bytes) before wrapping. | high (not executed) | EventLogger.AsWrittenRingHolds81Entries | EventLogger.RingHoldsAllEntries |
| interpreter_task.h:732 | Fast Aging lists value 0x01 "True" under mask 0x02, which the masked byte can never equal, and 0x02 "False". | Global Control 1 reads 0x02 (fast aging on): the report shows "False". It reads 0x00: no value is shown. | "True" for 0x02 and "False" for 0x00, as every other one-bit option lists them. | high (not executed) | RegisterDecode.FastAgingNeverTrue | RegisterDecode.FastAgingDecodes |
