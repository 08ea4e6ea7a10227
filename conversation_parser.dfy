/** The page-side conversation parser of the Copilot chat driver: random ids,
    the chat-turn locator, the bot-turn selector and counter, reply extraction,
    suggestions, the completion check and the action dispatcher. */
module ConversationParser {
  import opened Dom

  // ---------------------------------------------------------------------------
  // Random ids (makeid)

  /** The alphabet `makeid` draws from, in the order the source lists it. */
  const Characters: string := "ABCDEFGHIJKLMNOPQRSTUVWXYZabcdefghijklmnopqrstuvwxyz0987654321"

  /** One draw of `Math.floor(Math.random() * charactersLength)`. */
  type Pick = k: int | 0 <= k < 62

  predicate IsAlphanumeric(c: char) {
    'A' <= c <= 'Z' || 'a' <= c <= 'z' || '0' <= c <= '9'
  }

  /** The alphabet is its upper-case letters, its lower-case letters and its digits. */
  lemma CharactersSplit()
    ensures Characters == "ABCDEFGHIJKLMNOPQRSTUVWXYZ" + "abcdefghijklmnopqrstuvwxyz" + "0987654321"
  {
  }

  /** The alphabet has 62 characters, all of them ASCII letters or digits. */
  lemma CharactersAreAlphanumeric()
    ensures |Characters| == 62
    ensures forall k :: 0 <= k < |Characters| ==> IsAlphanumeric(Characters[k])
  {
    CharactersSplit();
    var upper, lower, digits := "ABCDEFGHIJKLMNOPQRSTUVWXYZ", "abcdefghijklmnopqrstuvwxyz", "0987654321";
    assert forall k :: 0 <= k < 26 ==> upper[k] == (65 + k) as char;
    assert forall k :: 0 <= k < 26 ==> lower[k] == (97 + k) as char;
    assert forall k :: 0 <= k < 10 ==> IsAlphanumeric(digits[k]);
    assert forall k :: 0 <= k < 62 ==>
        Characters[k] == if k < 26 then upper[k] else if k < 52 then lower[k - 26] else digits[k - 52];
  }

  /** Every ASCII letter and digit is in the alphabet. */
  lemma AlphanumericsAreCharacters(c: char)
    requires IsAlphanumeric(c)
    ensures c in Characters
  {
    CharactersSplit();
  }

  /** `makeid(length)`, with the random draws supplied as `picks`. */
  method MakeId(length: int, picks: seq<Pick>) returns (result: string)
    requires length <= |picks|
    ensures |result| == if length < 0 then 0 else length
    ensures forall k :: 0 <= k < |result| ==> result[k] == Characters[picks[k]]
    ensures forall k :: 0 <= k < |result| ==> IsAlphanumeric(result[k])
  {
    CharactersAreAlphanumeric();
    result := "";
    var i := 0;
    while i < length
      invariant 0 <= i <= if length < 0 then 0 else length
      invariant |result| == i
      invariant forall k :: 0 <= k < i ==> result[k] == Characters[picks[k]]
    {
      result := result + [Characters[picks[i]]];
      i := i + 1;
    }
  }

  // ---------------------------------------------------------------------------
  // Chat-turn locator and the bot-turn predicate

  /** `getCibChatTurns`: the chat turns in document order; a faulting query is
      caught and yields no turns. */
  function GetCibChatTurns(page: Page): (turns: seq<Turn>)
    ensures page.turns.Ok? ==> turns == page.turns.value
    ensures page.turns.Throw? ==> turns == []
  {
    match page.turns
    case Ok(ts) => ts
    case Throw(_) => []
  }

  /** The one test the selector and the counter share: the attribute's value
      is exactly "ai-message". */
  predicate IsBotTag(tag: Option<string>) {
    tag == Some("ai-message")
  }

  /** The turn's tag reads without fault and marks a bot turn. */
  predicate IsBotTurn(turn: Turn) {
    turn.dataContent.Ok? && IsBotTag(turn.dataContent.value)
  }

  /** Every turn from position `from` on reads without fault and is not a bot turn. */
  ghost predicate NoBotFrom(turns: seq<Turn>, from: nat) {
    forall j :: from <= j < |turns| ==> turns[j].dataContent.Ok? && !IsBotTag(turns[j].dataContent.value)
  }

  // ---------------------------------------------------------------------------
  // Bot-turn selector (getLastMessageGroupBot)

  /** The backward scan: the position of the last bot turn, None when there is
      none, or the fault of the first tag read (from the end) that raises. */
  function LastBotTurn(turns: seq<Turn>): (r: Read<Option<nat>>)
    ensures r.Ok? && r.value.Some? ==> r.value.value < |turns|
    decreases |turns|
  {
    if |turns| == 0 then Ok(None)
    else
      var last := |turns| - 1;
      match turns[last].dataContent
      case Throw(e) => Throw(e)
      case Ok(tag) => if IsBotTag(tag) then Ok(Some(last)) else LastBotTurn(turns[..last])
  }

  /** `getLastMessageGroupBot`: the turn is identified by its document position. */
  method GetLastMessageGroupBot(page: Page) returns (r: Read<Option<nat>>)
    ensures r == LastBotTurn(GetCibChatTurns(page))
  {
    var turns := GetCibChatTurns(page);
    if |turns| == 0 {
      return Ok(None);
    }
    var i := |turns| - 1;
    assert turns[..i + 1] == turns;
    while i >= 0
      invariant -1 <= i < |turns|
      invariant LastBotTurn(turns) == LastBotTurn(turns[..i + 1])
    {
      assert turns[..i + 1][i] == turns[i];
      match turns[i].dataContent {
        case Throw(e) =>
          return Throw(e);
        case Ok(tag) =>
          if IsBotTag(tag) {
            return Ok(Some(i));
          }
      }
      assert turns[..i + 1][..i] == turns[..i];
      i := i - 1;
    }
    return Ok(None);
  }

  /** "No bot turn from `from` on" splits into the same fact for all but the
      last turn, and the last turn reading as a non-bot turn. */
  lemma NoBotFromPrefix(turns: seq<Turn>, from: nat)
    requires 0 < |turns| && from < |turns|
    ensures NoBotFrom(turns, from) <==>
              NoBotFrom(turns[..|turns| - 1], from) && !IsBotTurn(turns[|turns| - 1]) && turns[|turns| - 1].dataContent.Ok?
  {
  }

  /** The selector returns position `i` exactly when the turn there is a bot
      turn and every later turn reads as a non-bot turn. */
  lemma {:induction false} LastBotTurnFound(turns: seq<Turn>, i: nat)
    ensures LastBotTurn(turns) == Ok(Some(i)) <==>
              i < |turns| && IsBotTurn(turns[i]) && NoBotFrom(turns, i + 1)
  {
    if |turns| > 0 {
      var last := |turns| - 1;
      if i < last {
        NoBotFromPrefix(turns, i + 1);
        LastBotTurnFound(turns[..last], i);
        assert turns[..last][i] == turns[i];
      }
    }
  }

  /** The selector returns None exactly when every turn reads as a non-bot turn
      (in particular when there are no turns). */
  lemma {:induction false} LastBotTurnNone(turns: seq<Turn>)
    ensures LastBotTurn(turns) == Ok(None) <==> NoBotFrom(turns, 0)
  {
    if |turns| > 0 {
      NoBotFromPrefix(turns, 0);
      LastBotTurnNone(turns[..|turns| - 1]);
    }
  }

  /** The selector raises `e` exactly when some tag read raises `e` and every
      later turn reads as a non-bot turn. */
  lemma {:induction false} LastBotTurnFault(turns: seq<Turn>, e: string)
    ensures LastBotTurn(turns) == Throw(e) <==>
              exists k :: 0 <= k < |turns| && turns[k].dataContent == Throw(e) && NoBotFrom(turns, k + 1)
  {
    if |turns| > 0 {
      var last := |turns| - 1;
      var p := turns[..last];
      LastBotTurnFault(p, e);
      match turns[last].dataContent {
        case Throw(e') =>
          if e' == e {
            assert NoBotFrom(turns, last + 1);
          } else {
            forall k | 0 <= k < |turns| && turns[k].dataContent == Throw(e)
              ensures !NoBotFrom(turns, k + 1)
            {
            }
          }
        case Ok(tag) =>
          if IsBotTag(tag) {
            forall k | 0 <= k < |turns| && turns[k].dataContent == Throw(e)
              ensures !NoBotFrom(turns, k + 1)
            {
            }
          } else {
            if exists k :: 0 <= k < |turns| && turns[k].dataContent == Throw(e) && NoBotFrom(turns, k + 1) {
              var k :| 0 <= k < |turns| && turns[k].dataContent == Throw(e) && NoBotFrom(turns, k + 1);
              NoBotFromPrefix(turns, k + 1);
              assert p[k] == turns[k];
            }
            if exists k :: 0 <= k < |p| && p[k].dataContent == Throw(e) && NoBotFrom(p, k + 1) {
              var k :| 0 <= k < |p| && p[k].dataContent == Throw(e) && NoBotFrom(p, k + 1);
              NoBotFromPrefix(turns, k + 1);
              assert p[k] == turns[k];
            }
          }
      }
    }
  }

  // ---------------------------------------------------------------------------
  // Bot-turn counter (countMessagesBot)

  /** The number of bot turns, counted front to back. */
  function BotTurns(turns: seq<Turn>): (n: nat)
    ensures n <= |turns|
    decreases |turns|
  {
    if |turns| == 0 then 0
    else BotTurns(turns[..|turns| - 1]) + (if IsBotTurn(turns[|turns| - 1]) then 1 else 0)
  }

  /** The length of the longest prefix whose tags all read without fault:
      the position of the first raising tag read, or the number of turns. */
  function ReadablePrefix(turns: seq<Turn>): (n: nat)
    ensures n <= |turns|
    ensures forall j :: 0 <= j < n ==> turns[j].dataContent.Ok?
    ensures n < |turns| ==> turns[n].dataContent.Throw?
    decreases |turns|
  {
    if |turns| == 0 || turns[0].dataContent.Throw? then 0
    else 1 + ReadablePrefix(turns[1..])
  }

  /** `countMessagesBot`: the bot turns counted before the first raising tag
      read; the fault itself is caught. */
  method CountMessagesBot(page: Page) returns (counter: nat)
    ensures var turns := GetCibChatTurns(page);
            counter == BotTurns(turns[..ReadablePrefix(turns)])
  {
    counter := 0;
    var turns := GetCibChatTurns(page);
    var i := 0;
    while i < |turns|
      invariant 0 <= i <= |turns|
      invariant forall j :: 0 <= j < i ==> turns[j].dataContent.Ok?
      invariant counter == BotTurns(turns[..i])
    {
      assert turns[..i + 1][..i] == turns[..i];
      match turns[i].dataContent {
        case Throw(_) =>
          break;
        case Ok(tag) =>
          if IsBotTag(tag) {
            counter := counter + 1;
          }
      }
      i := i + 1;
    }
    assert i == ReadablePrefix(turns);
  }

  /** The bot-turn count is the number of positions that hold a bot turn. */
  lemma {:induction false} BotTurnsCountsPositions(turns: seq<Turn>)
    ensures BotTurns(turns) == |set j | 0 <= j < |turns| && IsBotTurn(turns[j])|
  {
    if |turns| > 0 {
      var last := |turns| - 1;
      var p := turns[..last];
      BotTurnsCountsPositions(p);
      var sp := set j | 0 <= j < |p| && IsBotTurn(p[j]);
      var s := set j | 0 <= j < |turns| && IsBotTurn(turns[j]);
      if IsBotTurn(turns[last]) {
        assert s == sp + {last};
      } else {
        assert s == sp;
      }
    }
  }

  /** The count is zero exactly when no turn is a bot turn. */
  lemma {:induction false} BotTurnsZero(turns: seq<Turn>)
    ensures BotTurns(turns) == 0 <==> forall j :: 0 <= j < |turns| ==> !IsBotTurn(turns[j])
  {
    if |turns| > 0 {
      var p := turns[..|turns| - 1];
      BotTurnsZero(p);
      assert forall j :: 0 <= j < |p| ==> p[j] == turns[j];
    }
  }

  /** The counter and the selector agree: a positive count means the selector
      does not report "no bot turn", and when every tag reads without fault,
      the count is positive exactly when the selector finds a turn. */
  lemma {:induction false} CountAgreesWithSelector(turns: seq<Turn>)
    ensures BotTurns(turns[..ReadablePrefix(turns)]) > 0 ==> LastBotTurn(turns) != Ok(None)
    ensures ReadablePrefix(turns) == |turns| ==>
              (BotTurns(turns) > 0 <==> LastBotTurn(turns).Ok? && LastBotTurn(turns).value.Some?)
  {
    var n := ReadablePrefix(turns);
    var q := turns[..n];
    BotTurnsZero(q);
    LastBotTurnNone(turns);
    assert forall j :: 0 <= j < n ==> q[j] == turns[j];
    if n == |turns| {
      assert q == turns;
      if LastBotTurn(turns).Throw? {
        LastBotTurnFault(turns, LastBotTurn(turns).error);
      }
    }
  }

  // ---------------------------------------------------------------------------
  // Reply extraction (parseMessages)

  /** The parsed reply as the source's object: each field is None while unset. */
  datatype Message = Message(finalized: Option<bool>, text: Option<string>, codeBlocks: Option<map<string, string>>)

  /** The object `{}`. */
  const EmptyRecord := Message(None, None, None)

  /** One step of the accumulation: while the text is still "" the block
      replaces it, otherwise a newline and the block are appended. */
  function AppendBlock(text: string, block: string): (appended: string)
    ensures text != "" ==> |appended| == |text| + 1 + |block| && appended[..|text|] == text
    ensures appended == "" <==> text == "" && block == ""
  {
    if text == "" then block else text + "\n" + block
  }

  /** The text accumulated from the blocks, left to right, starting from "". */
  function AccumulateText(blocks: seq<string>): (text: string)
    decreases |blocks|
  {
    if |blocks| == 0 then ""
    else AppendBlock(AccumulateText(blocks[..|blocks| - 1]), blocks[|blocks| - 1])
  }

  /** The blocks joined by a single newline. */
  function JoinLines(blocks: seq<string>): (joined: string)
    decreases |blocks|
  {
    if |blocks| == 0 then ""
    else if |blocks| == 1 then blocks[0]
    else JoinLines(blocks[..|blocks| - 1]) + "\n" + blocks[|blocks| - 1]
  }

  /** The blocks without their leading empty ones. */
  function DropLeadingEmpty(blocks: seq<string>): (rest: seq<string>)
    decreases |blocks|
  {
    if |blocks| == 0 || blocks[0] != "" then blocks else DropLeadingEmpty(blocks[1..])
  }

  /** Dropping leading empty blocks leaves nothing exactly when every block is
      empty, leaves a non-empty first block otherwise, and commutes with
      appending a block once a non-empty block has been seen. */
  lemma {:induction false} DropLeadingEmptyShape(blocks: seq<string>)
    ensures DropLeadingEmpty(blocks) == [] <==> forall k :: 0 <= k < |blocks| ==> blocks[k] == ""
    ensures DropLeadingEmpty(blocks) != [] ==> DropLeadingEmpty(blocks)[0] != ""
    ensures DropLeadingEmpty(blocks) != [] ==>
              forall b :: DropLeadingEmpty(blocks + [b]) == DropLeadingEmpty(blocks) + [b]
    ensures DropLeadingEmpty(blocks) == [] ==>
              forall b :: DropLeadingEmpty(blocks + [b]) == (if b == "" then [] else [b])
    decreases |blocks|
  {
    if |blocks| > 0 && blocks[0] == "" {
      DropLeadingEmptyShape(blocks[1..]);
      forall b ensures (blocks + [b])[1..] == blocks[1..] + [b] {
      }
    }
  }

  /** A join whose first block is non-empty is non-empty. */
  lemma {:induction false} JoinLinesNonEmpty(blocks: seq<string>)
    requires |blocks| > 0 && blocks[0] != ""
    ensures JoinLines(blocks) != ""
  {
  }

  /** The accumulated text is the newline-join of the blocks once the leading
      empty blocks are dropped; later empty blocks still get their newline. */
  lemma {:induction false} AccumulateIsJoinOfRest(blocks: seq<string>)
    ensures AccumulateText(blocks) == JoinLines(DropLeadingEmpty(blocks))
    decreases |blocks|
  {
    if |blocks| > 0 {
      var last := |blocks| - 1;
      var p := blocks[..last];
      var b := blocks[last];
      assert blocks == p + [b];
      AccumulateIsJoinOfRest(p);
      DropLeadingEmptyShape(p);
      var d := DropLeadingEmpty(p);
      if d == [] {
        assert AccumulateText(p) == "";
      } else {
        JoinLinesNonEmpty(d);
        assert DropLeadingEmpty(blocks) == d + [b];
        assert (d + [b])[..|d|] == d;
      }
    }
  }

  /** When no block is empty, the accumulated text is the plain newline-join. */
  lemma AccumulateIsJoin(blocks: seq<string>)
    requires forall k :: 0 <= k < |blocks| ==> blocks[k] != ""
    ensures AccumulateText(blocks) == JoinLines(blocks)
  {
    AccumulateIsJoinOfRest(blocks);
  }

  /** A join of two or more blocks is the first block, a newline and the join
      of the rest. */
  lemma {:induction false} JoinLinesFront(blocks: seq<string>)
    requires |blocks| >= 2
    ensures JoinLines(blocks) == blocks[0] + "\n" + JoinLines(blocks[1..])
    decreases |blocks|
  {
    var n := |blocks|;
    if n == 2 {
      assert blocks[..1] == [blocks[0]];
      assert blocks[1..] == [blocks[1]];
    } else {
      var p := blocks[..n - 1];
      JoinLinesFront(p);
      assert p[1..] == blocks[1..][..n - 2];
      assert p[0] == blocks[0];
    }
  }

  /** The accumulated text is never longer than the plain join. */
  lemma {:induction false} AccumulateNoLongerThanJoin(blocks: seq<string>)
    ensures |AccumulateText(blocks)| <= |JoinLines(blocks)|
    decreases |blocks|
  {
    if |blocks| > 1 {
      AccumulateNoLongerThanJoin(blocks[..|blocks| - 1]);
    }
  }

  /** The accumulated text equals the plain newline-join exactly when there is
      at most one block or the first block is not empty: a leading empty block
      followed by others loses the newline the join would put after it. */
  lemma AccumulateIsJoinExactly(blocks: seq<string>)
    ensures AccumulateText(blocks) == JoinLines(blocks) <==> |blocks| <= 1 || blocks[0] != ""
  {
    if |blocks| >= 2 && blocks[0] == "" {
      var rest := blocks[1..];
      AccumulateIsJoinOfRest(blocks);
      AccumulateIsJoinOfRest(rest);
      JoinLinesFront(blocks);
      AccumulateNoLongerThanJoin(rest);
      assert |AccumulateText(blocks)| < |JoinLines(blocks)|;
    } else if |blocks| >= 2 {
      AccumulateIsJoinOfRest(blocks);
    } else if |blocks| == 1 {
      assert blocks[..0] == [];
    }
  }

  /** The accumulated text stays "" exactly when every block is "". */
  lemma AccumulateEmptyIff(blocks: seq<string>)
    ensures AccumulateText(blocks) == "" <==> forall k :: 0 <= k < |blocks| ==> blocks[k] == ""
  {
    AccumulateIsJoinOfRest(blocks);
    DropLeadingEmptyShape(blocks);
    if DropLeadingEmpty(blocks) != [] {
      JoinLinesNonEmpty(DropLeadingEmpty(blocks));
    }
  }

  /** What `parseMessages` produces for the given turns: a fault raised by the
      selector or by the paragraph query, `{}` without a bot turn, otherwise a
      finalized record that holds text and code blocks only when the turn has
      paragraphs. */
  function ParsedMessage(turns: seq<Turn>): (r: Read<Message>)
    ensures r == Ok(EmptyRecord) <==> NoBotFrom(turns, 0)
    ensures r.Ok? && r.value != EmptyRecord ==> r.value.finalized == Some(true)
    ensures r.Ok? ==> (r.value.text.Some? <==> r.value.codeBlocks.Some?)
    ensures r.Ok? && r.value.codeBlocks.Some? ==> r.value.codeBlocks.value == map[]
  {
    LastBotTurnNone(turns);
    match LastBotTurn(turns)
    case Throw(e) => Throw(e)
    case Ok(None) => Ok(EmptyRecord)
    case Ok(Some(i)) =>
      match turns[i].paragraphs
      case Throw(e) => Throw(e)
      case Ok(blocks) =>
        if |blocks| > 0 then Ok(Message(Some(true), Some(AccumulateText(blocks)), Some(map[])))
        else Ok(Message(Some(true), None, None))
  }

  /** The reply text of the last bot turn `i` with paragraphs `blocks`: the
      paragraphs joined by newlines after the leading empty ones. */
  lemma ParsedMessageText(turns: seq<Turn>, i: nat, blocks: seq<string>)
    requires i < |turns| && IsBotTurn(turns[i]) && NoBotFrom(turns, i + 1)
    requires turns[i].paragraphs == Ok(blocks)
    ensures |blocks| == 0 ==> ParsedMessage(turns) == Ok(Message(Some(true), None, None))
    ensures |blocks| > 0 ==>
              ParsedMessage(turns) == Ok(Message(Some(true), Some(JoinLines(DropLeadingEmpty(blocks))), Some(map[])))
  {
    LastBotTurnFound(turns, i);
    AccumulateIsJoinOfRest(blocks);
  }

  /** `parseMessages`. */
  method ParseMessages(page: Page) returns (r: Read<Message>)
    ensures r == ParsedMessage(GetCibChatTurns(page))
  {
    var lastMessageGroupBot := GetLastMessageGroupBot(page);
    if lastMessageGroupBot.Throw? {
      return Throw(lastMessageGroupBot.error);
    }
    if lastMessageGroupBot.value.None? {
      return Ok(EmptyRecord);
    }
    var turn := GetCibChatTurns(page)[lastMessageGroupBot.value.value];

    var result := EmptyRecord;
    result := result.(finalized := Some(true));

    if turn.paragraphs.Throw? {
      return Throw(turn.paragraphs.error);
    }
    var textBlocks := turn.paragraphs.value;

    if |textBlocks| > 0 {
      result := result.(text := Some(""), codeBlocks := Some(map[]));
      for k := 0 to |textBlocks|
        invariant result == Message(Some(true), Some(AccumulateText(textBlocks[..k])), Some(map[]))
      {
        assert textBlocks[..k + 1][..k] == textBlocks[..k];
        var textContent := textBlocks[k];
        if result.text.value == "" {
          result := result.(text := Some(textContent));
        } else {
          result := result.(text := Some(result.text.value + "\n" + textContent));
        }
      }
      assert textBlocks[..|textBlocks|] == textBlocks;
    }
    return Ok(result);
  }

  // ---------------------------------------------------------------------------
  // Suggestions (parseSuggestions)

  /** `parseSuggestions`: the extraction is a placeholder, the result always empty. */
  function ParseSuggestions(): (suggestions: seq<string>)
    ensures suggestions == []
  {
    []
  }

  // ---------------------------------------------------------------------------
  // Completion check and dispatcher (actionHandle)

  /** The "finished" branch: false exactly when the stop button is present and
      enabled, true when it is absent or disabled; a faulting query raises. */
  function IsFinished(page: Page): (r: Read<bool>)
    ensures r == Ok(false) <==> page.stopButton.Ok? && page.stopButton.value.Some? && !page.stopButton.value.value.disabled
    ensures r == Ok(true) <==> page.stopButton.Ok? && (page.stopButton.value.None? || page.stopButton.value.value.disabled)
    ensures r.Throw? ==> page.stopButton == Throw(r.error)
  {
    match page.stopButton
    case Throw(e) => Throw(e)
    case Ok(button) => Ok(!(button.Some? && !button.value.disabled))
  }

  /** What `actionHandle` returns; `Undefined` is JavaScript's undefined and
      `Error` the envelope `{error: ...}`. */
  datatype ActionResult =
    | Count(count: nat)
    | Parsed(message: Message)
    | Suggestions(suggestions: seq<string>)
    | Finished(finished: bool)
    | Error(error: string)
    | Undefined

  /** A fault of a component turned into the error envelope. */
  function ContainFault<T>(outcome: Read<T>, wrap: T -> ActionResult): (r: ActionResult)
    ensures outcome.Throw? ==> r == Error(outcome.error)
    ensures outcome.Ok? ==> r == wrap(outcome.value)
  {
    match outcome
    case Ok(v) => wrap(v)
    case Throw(e) => Error(e)
  }

  /** `actionHandle(action)`: routes the action to one component inside a
      single fault boundary. */
  method ActionHandle(page: Page, action: string) returns (r: ActionResult)
    ensures action == "count" ==>
              var turns := GetCibChatTurns(page); r == Count(BotTurns(turns[..ReadablePrefix(turns)]))
    ensures action == "parse" ==> r == ContainFault(ParsedMessage(GetCibChatTurns(page)), m => Parsed(m))
    ensures action == "suggestions" ==> r == Suggestions([])
    ensures action == "finished" ==> r == ContainFault(IsFinished(page), b => Finished(b))
    ensures action !in {"count", "parse", "suggestions", "finished"} ==> r == Undefined
    ensures r.Error? ==> action in {"parse", "finished"}
  {
    if action == "captcha" {
      // The captcha check has no logic: control falls out of the dispatch.
    } else if action == "count" {
      var n := CountMessagesBot(page);
      return Count(n);
    } else if action == "parse" {
      var message := ParseMessages(page);
      return ContainFault(message, m => Parsed(m));
    } else if action == "suggestions" {
      return Suggestions(ParseSuggestions());
    } else if action == "finished" {
      return ContainFault(IsFinished(page), b => Finished(b));
    }
    return Undefined;
  }

  /** The worked example: turns [user, bot, bot], the last bot turn with the
      paragraphs "Hello" and "World", no stop button. */
  lemma ThreeTurnConversation(user: Turn, page: Page)
    requires user.dataContent == Ok(Some("user-message"))
    requires page.turns == Ok([user, Turn(Ok(Some("ai-message")), Ok([])),
                                Turn(Ok(Some("ai-message")), Ok(["Hello", "World"]))])
    requires page.stopButton == Ok(None)
    ensures var turns := GetCibChatTurns(page); BotTurns(turns[..ReadablePrefix(turns)]) == 2
    ensures ParsedMessage(GetCibChatTurns(page)) == Ok(Message(Some(true), Some("Hello\nWorld"), Some(map[])))
    ensures IsFinished(page) == Ok(true)
  {
    var turns := GetCibChatTurns(page);
    assert turns[..2] == turns[..3][..2];
    assert BotTurns([user]) == 0;
    assert BotTurns(turns[..2]) == 1;
    assert AccumulateText(["Hello", "World"]) == "Hello\nWorld";
  }
}
