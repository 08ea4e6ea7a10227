# Copilot conversation parser, in Dafny

This project models the page-side script that the LMAO driver injects into the
Microsoft Copilot chat page (`src/lmao/ms_copilot/conversationParser.js`). The
driver calls the script once per action. The script reads the page and returns
one of these:
- the number of bot turns (`count`);
- the last bot reply as a record `{finalized, text, code_blocks}` (`parse`);
- the follow-up suggestions, which are always empty (`suggestions`);
- whether generation has finished (`finished`);
- an error envelope `{error: ...}` when a DOM call raised during `parse` or `finished`. Those are the only faults the script does not catch locally: a raising turn-list query gives no turns, and a raising attribute read during `count` gives the count so far.

`makeid`, the random-string helper, is modelled too.

The DOM is replaced by values (`dom.dfy`, module `Dom`):
- A `Page` holds the result of the chat-turn query and the result of the stop-button query.
- A `Turn` holds the result of `getAttribute("data-content")` and the result of `querySelectorAll("p")`. Each paragraph is its `innerHTML` string.
- Every DOM call can raise: its result is a `Read<T>`, either `Ok(v)` or `Throw(e)`, where `e` is the string the fault turns into through `"" + error`.
- Property reads (`innerHTML`, `disabled`) are plain values.

`conversation_parser.dfy` (module `ConversationParser`) follows the script function by function:
- The loops of `makeid`, `getLastMessageGroupBot`, `countMessagesBot` and `parseMessages` are methods with loop invariants.
- `MakeId` states its result in closed form: character k is the alphabet entry at the k-th draw.
- `GetLastMessageGroupBot` is proved equal to the recursive backward scan `LastBotTurn`.
- `CountMessagesBot` is proved equal to the recursive count `BotTurns`, taken over the turns before the first faulting tag read (`ReadablePrefix`).
- `ParseMessages` is proved equal to the non-recursive function `ParsedMessage`. Its loop invariant ties the text built so far to the recursive accumulation `AccumulateText` of the paragraphs read so far.
- Lemmas then characterise each specification function independently.
- `getCibChatTurns`, `parseSuggestions` and the `finished` test are functions.
- `actionHandle` is a method, because it calls the loop methods.

The selector and the counter share one predicate, `IsBotTag`: the attribute reads exactly `"ai-message"`. An absent attribute is `None`, which is JavaScript's `null`.

The selector returns the *document position* of the turn it finds instead of the element. Here an element's identity is its position in the turn list.

Reply text is built as in the code: while the text is still `""`, the next paragraph replaces it; otherwise `"\n"` and the paragraph are appended. So leading empty paragraphs vanish, but a later empty paragraph still adds a newline. `AccumulateIsJoinOfRest` proves that the text is the newline-join of the paragraphs once the leading empty ones are dropped. It equals a plain newline-join exactly when there is at most one paragraph or the first paragraph is not empty (`AccumulateIsJoinExactly`). In particular this holds when no paragraph is empty (`AccumulateIsJoin`).

`countMessagesBot` catches a fault raised by an attribute read. It then returns what it has counted up to that turn, not 0. The model states this with `ReadablePrefix`.

## Model

| member | source | states |
|---|---|---|
| `ConversationParser.MakeId` | src/lmao/ms_copilot/conversationParser.js:39-48 | the id has `length` characters (none for a negative length); character k is the alphabet entry at the k-th random draw, and every character is an ASCII letter or digit |
| `ConversationParser.CharactersAreAlphanumeric` | src/lmao/ms_copilot/conversationParser.js:41-42 | the alphabet has 62 characters and each one is in A-Z, a-z or 0-9 |
| `ConversationParser.AlphanumericsAreCharacters` | src/lmao/ms_copilot/conversationParser.js:41 | every character in A-Z, a-z and 0-9 occurs in the alphabet |
| `ConversationParser.IsBotTag` | src/lmao/ms_copilot/conversationParser.js:75 | the shared test of lines 75 and 90: the `data-content` attribute reads exactly "ai-message"; an absent attribute (null) fails it |
| `ConversationParser.IsBotTurn` | src/lmao/ms_copilot/conversationParser.js:90 | a turn counts as a bot turn when its attribute read does not raise and passes `IsBotTag` |
| `ConversationParser.GetCibChatTurns` | src/lmao/ms_copilot/conversationParser.js:53-61 | the turns are those the query returns, in document order; a raising query is caught and gives no turns |
| `ConversationParser.LastBotTurn` | src/lmao/ms_copilot/conversationParser.js:66-80 | a position the backward scan returns is inside the turn list |
| `ConversationParser.GetLastMessageGroupBot` | src/lmao/ms_copilot/conversationParser.js:66-80 | the early return for no turns plus the backward index loop give the result of the backward scan `LastBotTurn` |
| `ConversationParser.LastBotTurnFound` | src/lmao/ms_copilot/conversationParser.js:73-78 | position i is returned if and only if turn i is a bot turn and every later turn reads as a non-bot turn |
| `ConversationParser.LastBotTurnNone` | src/lmao/ms_copilot/conversationParser.js:68-79 | null is returned if and only if every turn reads as a non-bot turn, which includes the case of no turns |
| `ConversationParser.LastBotTurnFault` | src/lmao/ms_copilot/conversationParser.js:73-78 | the selector raises e if and only if some tag read raises e and every later turn reads as a non-bot turn |
| `ConversationParser.BotTurns` | src/lmao/ms_copilot/conversationParser.js:89-93 | the number of turns passing `IsBotTurn`, added up front to back as the for-of loop does; never more than the number of turns |
| `ConversationParser.ReadablePrefix` | src/lmao/ms_copilot/conversationParser.js:87-97 | the counted prefix is the longest one whose tag reads do not raise: every read before it succeeds and the read at its end raises |
| `ConversationParser.CountMessagesBot` | src/lmao/ms_copilot/conversationParser.js:85-99 | the counter is the number of bot turns before the first raising tag read; the fault is caught |
| `ConversationParser.BotTurnsCountsPositions` | src/lmao/ms_copilot/conversationParser.js:89-93 | the count equals the number of positions that hold a turn tagged "ai-message" |
| `ConversationParser.BotTurnsZero` | src/lmao/ms_copilot/conversationParser.js:89-93 | the count is 0 if and only if no turn is tagged "ai-message" |
| `ConversationParser.CountAgreesWithSelector` | src/lmao/ms_copilot/conversationParser.js:66-99 | a positive count rules out a null selector result; when no tag read raises, the count is positive if and only if the selector finds a turn |
| `ConversationParser.AppendBlock` | src/lmao/ms_copilot/conversationParser.js:125-129 | one step of the accumulation: a block replaces text that is still "", otherwise text, "\n" and block are concatenated; a non-empty text is kept as the prefix, and the step gives "" only from "" and "" |
| `ConversationParser.AccumulateText` | src/lmao/ms_copilot/conversationParser.js:118-130 | the text accumulated by the loop: start from "" and apply `AppendBlock` to each paragraph in document order |
| `ConversationParser.AccumulateIsJoinOfRest` | src/lmao/ms_copilot/conversationParser.js:121-130 | the accumulated text is the paragraphs joined by single newlines after the leading empty paragraphs are dropped |
| `ConversationParser.AccumulateIsJoin` | src/lmao/ms_copilot/conversationParser.js:121-130 | when no paragraph is empty, the accumulated text is the plain newline-join of the paragraphs |
| `ConversationParser.AccumulateIsJoinExactly` | src/lmao/ms_copilot/conversationParser.js:121-130 | the accumulated text equals the plain newline-join if and only if there is at most one paragraph or the first paragraph is not empty |
| `ConversationParser.AccumulateEmptyIff` | src/lmao/ms_copilot/conversationParser.js:125-129 | the text remains "" if and only if every paragraph is "" |
| `ConversationParser.ParsedMessage` | src/lmao/ms_copilot/conversationParser.js:105-136 | the result is `{}` if and only if there is no bot turn; any other record is finalized; `text` is set if and only if `code_blocks` is, and `code_blocks` is the empty map |
| `ConversationParser.ParsedMessageText` | src/lmao/ms_copilot/conversationParser.js:112-130 | for the last bot turn: no paragraphs give `{finalized: true}` alone; otherwise the text is the join of the paragraphs after the leading empty ones, with empty `code_blocks` |
| `ConversationParser.ParseMessages` | src/lmao/ms_copilot/conversationParser.js:105-136 | the field updates and the accumulation loop produce `ParsedMessage` of the page's turns, and selector and paragraph-query faults propagate |
| `ConversationParser.ParseSuggestions` | src/lmao/ms_copilot/conversationParser.js:142-152 | the suggestions are always the empty sequence |
| `ConversationParser.IsFinished` | src/lmao/ms_copilot/conversationParser.js:186-198 | false if and only if the stop button is present and enabled; true if and only if it is absent or disabled; a raising query raises |
| `ConversationParser.ContainFault` | src/lmao/ms_copilot/conversationParser.js:201-205 | a raised fault becomes the error envelope carrying its string; a value is passed on |
| `ConversationParser.ActionHandle` | src/lmao/ms_copilot/conversationParser.js:163-206 | "count", "parse", "suggestions" and "finished" return their component's result; "captcha" and unknown tokens return undefined; faults come back as the error envelope, and only from "parse" or "finished" |
| `ConversationParser.ThreeTurnConversation` | src/lmao/ms_copilot/conversationParser.js:85-198 | turns [user, bot, bot] whose last turn has paragraphs "Hello" and "World", with no stop button, give count 2, `{finalized: true, text: "Hello\nWorld", code_blocks: {}}` and finished true |

## Left out

- The browser DOM (`querySelectorAll`, `querySelector`, `getAttribute`, `innerHTML`, `disabled`) is replaced by the `Page` and `Turn` values. Each query is assumed to see the same document within one action.
- `Math.random` and the float multiply-and-floor in `makeid` are replaced by a supplied sequence of draws in [0, 62).
- MakeId: takes an integer `length`. A non-integer JavaScript length, which would round the loop count up, is not modelled.
- `console.error` logging is left out: it is observability only.
- The WebDriver plumbing is left out: the `callback` taken from `arguments` (line 156) and the top-level call `actionHandle(arguments[0])` (line 209). The callback is never invoked, so the model gives `actionHandle`'s return value.
- The captcha branch (lines 166-168) has no code, so it is modelled only as falling through to undefined.
- `isParseInjected` (lines 29-31) is left out: it always returns true.
- How JavaScript stringifies an error value is not modelled: a fault carries its string form directly.
