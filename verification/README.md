# The inference engine, modelled and proved

The engine serves language models over HTTP: it turns requests into prompts, runs many of them
together on one model, constrains a reply to JSON when asked, reads a reply back into reasoning,
text and tool calls while it is written, streams it, and reads a mixture's experts from the drive.
This project models the parts of it where something could silently be wrong, and proves that it
is not. Code that changes state in the engine is a class or a method over arrays here, proved
against a function; code made of expressions is functions. Each file's first lines say what it is.

**JSON.** `JsonGrammar` is RFC 8259 as derivation trees that keep every byte. Three readers of it
are proved to say the same: the automaton of JSON mode, as a pushdown automaton (`JsonPrefix`,
`JsonAccepts`) and as the struct the engine updates in place (`JsonPrefixStruct`); the parser, as
functions with their inverse (`JsonReader`, `JsonTree`) and as a cursor with its loops
(`JsonParser`); and the grammar itself (`JsonAgrees`). `JsonMask` is the cache of token masks.
`JsonWriter`, `FloatRepr`, `JsonRoundTrip` and `RepeatedKeys` are the writer that follows Python's
`json.dumps`; `JsonMeans` says, without it, when two trees mean the same.

**Replies.** `ReplyReading` says what a whole reply means; `ReplyParser` is the parser that gets
there however the reply arrives; `ReplyEnding` is how a reply ends; `ReplyStream` adds stop
sequences, unfinished characters and the stream of deltas. `ChatCall`, `ChatTurn`, `TurnExact` and
`TurnTags` are the chat template's assistant turn and its inverse. `Convert`, `ConvertRun`,
`ConvertAgree` and `ConvertRefuse` are the three request shapes that become one conversation, or are
refused. `Spelling` spells out in letters what is written around what varies.

**Scheduling.** `Solo` says what a request is promised: the reply it would get alone, a token at a
time. `Drafting`, `Lending`, `Serving`, `Rounds` and `Scheduling` are the scheduler that lends
sequences, reuses prefixes, splits prompts, batches rows and drafts tokens, and keeps that promise.

**Threads.** `Ring`, `ExpertPlan` and `ExpertStream` are the experts' cache and its readers; `Pool`
is the pool of threads. A method there is what one thread does while it holds the lock once, or one
read outside it, so any interleaving is some order of the methods. A thread that sleeps on a
condition does nothing until a signal or a broadcast wakes it.

**Arithmetic.** `Sha256Spec` is FIPS 180-4, `Sha256Example` its first example, and `Sha256` the incremental context. `Tiles` and
`Matvec` are the tiled and the packed products, bit for bit.

## What is taken as given

- The model is a function from the tokens a sequence holds to a row of scores.
  `engine/include/model.h:195-288` promises this of truncating, of rows, and of a prompt in pieces
  each at least as long as `vitna_llama_prompt_piece_min`. It is assumed of what is left of a prompt
  once a prefix of it is reused, which may be shorter than that: there the header does not promise
  it of a dense model on a GPU.
- What fails is an input, so that nothing else may be blamed for it: any function says which of the
  model's steps for a request fail and after how many tokens its client has left (`Solo.Fate`), and
  any function what the drive gives at each call made to it, so many bytes or an error.
- A float is an uninterpreted value with uninterpreted operations, one of them a multiplication
  and an addition together, so equal results are equal expressions and hold under any rounding.
- `FloatRepr.Sound` lists what is used of `strtod` and `printf`, and no more: seventeen digits read
  back as the double printed, the digits printed are as many as asked for, the first of them not zero
  and the exponent within bounds, a double's size is not negative, and zero reads as zero.
- The pools of `api.c` and `encoder.c` follow `pool.c`'s protocol: the first counts down in
  `pool_pending` what the modelled one counts up in `finished`, and reads a job's pointer under the
  lock, which is three of the modelled pool's steps in one.

## Where the code and its documentation differ

- `engine/include/chat.h:95-96` says a final call drops the newlines at the ends of the parts. The
  code (`engine/src/chat.c:513-518`) keeps those of the text a reply ends in, and the model follows
  the code. `ReplyEnding.KeepsItsNewlines` says exactly when there are any and how many, and
  `ReplyEnding.ANewlineKept` is a text where it happens.

## Where a promise has a condition

- The parser skips a byte order mark, and the automaton refuses one: `JsonRoundTrip.WholeIffParsed`
  is the exact condition for the two to agree, `JsonRoundTrip.OnlyTheParserSkipsTheMark` a text where
  they do not.
- A number that overflows a double is written as `Infinity`, which is not JSON:
  `JsonRoundTrip.RoundTrip` says what is written is read back exactly when no number written is one,
  and `JsonRoundTrip.AnInfinityWritten` is a text where one is.
- A repeated key is looked up as its first value and written as its last, as documented:
  `RepeatedKeys.LookedUpAsWritten` says exactly when the two agree.
- A turn is read back as it was written unless a tag inside it passes for one of the template's:
  `ChatTurn.ReasoningReadBack`, `TurnExact.CallsReadBack` and `TurnExact.TextReadBack` are the exact
  conditions for its reasoning, its calls and its text, and `TurnTags.TurnReadsBack` for all of it.
- A wait for places of an expert fails only when a read did: `ExpertStream.Stream.Wait` blames a file
  that ends too soon, or a call the drive answered with an error or with less than was asked.
- A masked row has a token left in every state a reply reaches if the vocabulary has a token for each
  byte a way on can begin with: `JsonMask.SomeTokenLeft` and `JsonMask.TakeReply`.

## Model

| member | source | states |
|---|---|---|
| JsonAgrees.CompleteIffDerived | engine/src/jsonpfx.c:48-268 | The automaton is complete on a text exactly when some derivation tree, an object with at most 64 levels, 16 bytes of whitespace in a row and UTF-8 strings, writes it |
| JsonAgrees.AcceptedIffViable | engine/src/jsonpfx.c:48-268 | The automaton has not failed on a text exactly when something can follow that makes it a derivable object: no false alarm, and no dead end is let in |
| JsonAgrees.NoDeadEnd | engine/src/jsonpfx.c:48-237 | From every state the invariant allows, a string computed from the state (the token's end, then every open container's closer) leads to completion |
| JsonAgrees.CompleteIffReadWithinLimits | engine/src/json.c:61-376 | On a text with no byte order mark skipped, the automaton is complete exactly when the parser's reader reads an object and its tree is within the automaton's limits (with the mark: WholeIffParsed) |
| JsonAccepts.DerivedIsComplete | engine/src/jsonpfx.c:77-237 | Every derivable object, whitespace and all, is complete when fed to the automaton |
| JsonPrefix.StepKeepsOk | engine/src/jsonpfx.c:48-237 | Whatever byte comes, the state keeps its invariant: depth at most 64, gaps at most 16, a word and a number within their own letters, a UTF-8 character owed at most three bytes |
| JsonPrefixStruct.Jsonpfx.FeedByte | engine/src/jsonpfx.c:181-237 | The struct updated in place, stale fields included, means after a byte what the automaton steps to, and answers whether it has not failed |
| JsonPrefixStruct.Jsonpfx.FeedBytes | engine/src/jsonpfx.c:246-251 | The same of a run of bytes |
| JsonPrefixStruct.Jsonpfx.Accepts | engine/src/jsonpfx.c:253-256 | True exactly when feeding the bytes would not fail, the struct itself unchanged |
| JsonPrefixStruct.Jsonpfx.NextBytes | engine/src/jsonpfx.c:258-264 | A byte is allowed exactly when the automaton does not fail on it, for each of the 256 |
| JsonPrefixStruct.Judge | engine/src/jsonpfx.c:239-268 | Initialised and fed a whole text, the struct says exactly whether it starts a derivable object and whether it is one |
| JsonPrefixStruct.SameKeySameLanguage | engine/src/api.c:1321-1322 | Two structs equal once the bytes above their depth are cleared accept the same continuations, so a mask may be kept under the cleared key |
| JsonMask.MaskCache.MaskDirectly | engine/src/api.c:1334-1346 | Exactly the tokens that cannot continue the object, are empty or are special lose their logits, and the answer says whether any is left |
| JsonMask.MaskCache.MaskJson | engine/src/api.c:1310-1383 | Whatever hits, misses and replacements came before, the row is the one masked directly, and so is the answer |
| JsonMask.MaskedReplyNeverFails | engine/src/api.c:1310-1383 | A reply of tokens each allowed by the mask of the state it was taken in never fails the automaton |
| JsonMask.MaskedReplyIsViable | engine/src/api.c:1310-1383 | Such a reply, cut anywhere even inside a token, is the start of an object within the limits; when the automaton says it is complete it is one |
| JsonMask.SomeTokenLeft | engine/src/api.c:1407-1413 | In any state short of a whole object, a vocabulary with a token for the first byte of the way on has a token allowed |
| JsonMask.LeftWasAllowed | engine/src/api.c:1407-1413 | After the mask and the ban of one token, the entries above minus infinity are exactly the tokens allowed and not banned |
| JsonMask.TakeReply | engine/src/api.c:1407-1455 | Masking, choosing and feeding token by token takes only tokens allowed where they were taken, and says exactly whether the object closed; when it ends early no token is allowed, or none but the banned one; and a vocabulary that can finish every state never ends a reply early but for the ban |
| JsonReader.ReadDocWrites | engine/src/json.c:61-400 | What the reader reads is a well-formed tree of at most 256 levels whose text is exactly the text read |
| JsonReader.DocReadBack | engine/src/json.c:61-400 | Every well-formed tree of at most 256 levels is read from its own text as that tree, so the grammar is unambiguous |
| JsonReader.ReadValueWrites | engine/src/json.c:336-376 | A value read is well formed, within the levels left, and is written as what it took off the text |
| JsonReader.ValueReadBack | engine/src/json.c:336-376 | A value is read back from its text before anything that does not prolong a number, leaving exactly the rest |
| JsonTree.DecodeShrinks | engine/src/json.c:101-174 | A string decoded is never longer than its text, so the buffer sized by the first pass is enough |
| JsonTree.Utf8IsUtf8 | engine/src/json.c:85-99 | Any code point but a surrogate becomes one UTF-8 character (RFC 3629) from which the code point is recovered |
| JsonTree.DecodedIsUtf8 | engine/src/json.c:101-174 | A string whose text is UTF-8 decodes to UTF-8 whatever it escapes, lone surrogates replaced |
| JsonTree.EscapesSay | engine/src/json.c:126-139 | There are exactly eight two-byte escapes, each for its own byte |
| JsonTree.HexDigitsSay | engine/src/json.c:65-70 | There are exactly twenty-two hex digits, each with its value, in either case |
| JsonTree.Hex4Says | engine/src/json.c:72-83 | Four hex digits are the number they are to base sixteen, in either case |
| JsonTree.PairSays | engine/src/json.c:140-162 | A surrogate pair is decoded as the code point it stands for |
| JsonTree.LoneSays | engine/src/json.c:140-162 | A surrogate without its other half is decoded as the replacement character |
| JsonParser.Cursor.ReadHex4 | engine/src/json.c:72-83 | Four hex digits give their value and move the cursor; anything else leaves it where it was |
| JsonParser.Cursor.PutUtf8 | engine/src/json.c:85-99 | The buffer gains exactly the code point's UTF-8, without overrunning it |
| JsonParser.Cursor.ParseString | engine/src/json.c:101-174 | Two passes over the text, the second writing into a buffer the first sized and never past its end, give the decoded string and the rest exactly when the grammar reads a string |
| JsonParser.Cursor.ParseNumber | engine/src/json.c:176-223 | The cursor takes the longest number the grammar reads, its text kept, or fails where the grammar does |
| JsonParser.Cursor.ParseArray | engine/src/json.c:247-275 | The items, their order, the rest and every failure are the grammar's, 256 levels deep |
| JsonParser.Cursor.ParseObject | engine/src/json.c:277-327 | The same of an object's members, repeated keys kept |
| JsonParser.Cursor.ParseValue | engine/src/json.c:336-376 | The same of any value with whitespace before it, the level count restored |
| JsonParser.Parse | engine/src/json.c:378-400 | The cursor's result on every text, byte order mark and trailing bytes included, is that of the grammar's reader: the same tree or none |
| FloatRepr.PyFloatRepr | engine/src/chat.c:49-94 | The loops over precisions, digits and layout write what Python's repr is: for a finite double, the fewest digits that read back, laid out |
| FloatRepr.LaidDenotes | engine/src/chat.c:60-94 | However digits are laid out, with an exponent, zeros or a point inside, the text is a JSON number with a point or an exponent and of exactly the same value |
| FloatRepr.ReprLaid | engine/src/chat.c:77-92 | A finite double's repr has an exponent exactly when it is less than 0.0001 or at least 10^16: after one digit that is not zero, with its sign, of two digits at least and no more zeros before them; and no fraction ends in a zero but the one after a whole number |
| FloatRepr.ReprReadsBack | engine/src/chat.c:49-94 | A finite double's repr is a float's text and reads back as that same double, its sign included |
| FloatRepr.ReprAgain | engine/src/chat.c:49-94 | A number's text read and written again reads as the same double |
| JsonWriter.Writer.WriteString | engine/src/chat.c:18-47 | Runs of bytes copied and escapes between them append exactly the quoted string |
| JsonWriter.EveryStringSurvives | engine/src/chat.c:18-47 | Every byte string, UTF-8 or not, escaped and decoded again is itself |
| JsonWriter.WrittenUtf8 | engine/src/chat.c:18-47 | What is written of a string is UTF-8 exactly when the string is |
| JsonWriter.Writer.WriteMembers | engine/src/chat.c:128-150 | The loops that skip keys seen and look ahead for the last value append the object merged as a dict |
| JsonWriter.Writer.Write | engine/src/chat.c:101-154 | What is appended for a value is the text of the tree with its repeated keys merged and its numbers as Python writes them, which means what the tree read does (NormAlike) |
| Spelling.ItemsLookSo | engine/src/chat.c:122-129 | Items stand between brackets, a comma and a space between each two |
| Spelling.MembersLookSo | engine/src/chat.c:130-152 | Members stand between braces, a comma and a space between each two, a colon and a space after each key |
| Spelling.StringsLookSo | engine/src/chat.c:18-47 | A string is written byte by byte between quotes: a quote and a backslash after a backslash, five controls by a letter, the others in lower-case hex, and every other byte as it is |
| Spelling.InfinitiesLookSo | engine/src/chat.c:54-57 | An infinite double is written Infinity, after a minus sign when it has one |
| JsonRoundTrip.WrittenAsDict | engine/src/chat.c:128-150 | The members written are those of the dict made by inserting the members one after another: a key where it first came, with its last value |
| RepeatedKeys.LookedUpAsWritten | engine/src/json.c:418-426 | In what is written of an object a key has its last value; so it is looked up as it is written exactly when its first and last values are written alike |
| RepeatedKeys.FirstReadLastWritten | engine/src/chat.c:128-150 | In an object whose a is 1 and then 2, a is looked up as 1 and written as 2 |
| JsonRoundTrip.ReadBack | engine/src/chat.c:101-154 | The text of any clean tree of at most 256 levels is parsed as that tree |
| JsonRoundTrip.RoundTrip | engine/src/chat.c:101-154 | Of any text that parses, what is written parses exactly when no number written is infinite; then it is the merged tree, means what the tree read does, and written again it is the same bytes |
| JsonRoundTrip.NormAlike | engine/src/chat.c:101-154 | The tree written means what the tree read does: the same words and strings, integers with the same sign and digits (zero without one), floats that read as the same double, items in order, and the members of its dict in the order their keys first come |
| JsonRoundTrip.AnInfinityWritten | engine/src/chat.c:105-119 | The text 1e999 is read, and where the doubles end before it what is written of it is Infinity, which is not read |
| JsonRoundTrip.WrittenIsWhole | engine/src/chat.c:101-154 | What is written of an object is complete to the automaton exactly when its strings are UTF-8 and it is at most 64 levels deep |
| JsonRoundTrip.WholeIffParsed | engine/src/json.c:378-400 | For every text: the automaton is complete exactly when there is no byte order mark, the parser reads an object, and it is within the automaton's limits |
| JsonRoundTrip.OnlyTheParserSkipsTheMark | engine/src/json.c:385-389 | The bytes EF BB BF 7B 7D are an empty object to the parser and a failure to the automaton |
| ReplyReading.HoldbackIsEnough | engine/src/chat.c:381-388 | With the longest end of a text that begins a tag held back, no tag that is completed later begins in what was let go |
| ReplyParser.Parser.FindTag | engine/src/chat.c:372-378 | The first place a tag stands from where the parser is, or none |
| ReplyParser.Parser.TagHoldback | engine/src/chat.c:381-388 | The longest end of the text that is a proper beginning of the tag |
| ReplyParser.Parser.ReportBytes | engine/src/chat.c:407-423 | A part's bytes reported run by run, newlines held back, say what the part's bytes say one by one |
| ReplyParser.Parser.Feed | engine/src/chat.c:467-568 | Whatever the reply becomes, what has been reported and what the rest will be read as add up to what they did before the call; with final nothing is left to report, and without it what is left waits: a tag that may be beginning, or what the next tag decides |
| ReplyParser.NothingMoreSure | engine/src/chat.c:467-530 | Of a text that waits, two ways it may go on are read differently from the very first event, so nothing more could have been reported |
| ReplyParser.Parser.AllSureIsReported | engine/src/chat.c:467-568 | After a call, whatever begins the reading of every reply the text may become has been reported |
| ReplyEnding.KeepsItsNewlines | engine/src/chat.c:513-527 | The newlines a final call keeps are those of the text the reply ends in, however many; there are some exactly when it ends in text or in a call left open that is not newlines alone, and its last byte is a newline |
| ReplyEnding.EndingIsTheEnd | engine/src/chat.c:467-568 | The text a reply ends in, with the tag of a call left open, is the end of the reply's own bytes |
| ReplyEnding.ANewlineKept | engine/src/chat.c:513-518 | The reply of an a and a newline is reported with its newline, whatever the rules |
| ReplyStream.Utf8CompletePrefix | engine/src/strbuf.c:119-133 | The loop finds where the last, unfinished character begins, or the end |
| ReplyStream.CompletePrefixAdvances | engine/src/strbuf.c:119-133 | What is a complete prefix stays one as text grows: bytes sent are never taken back |
| ReplyStream.HeldBackCoversStops | engine/src/api.c:1242-1257 | Text not held back comes before any stop sequence completed later |
| ReplyStream.Reply.StopHoldback | engine/src/api.c:1242-1257 | The longest end of the text that begins some stop sequence |
| ReplyStream.Reply.FindStop | engine/src/api.c:1259-1277 | Searching only where the new bytes could complete one finds the earliest stop sequence of the whole text |
| ReplyStream.Reply.OnPart | engine/src/api.c:1161-1222 | Parts are grouped as they come and sent as deltas, each opened once, in order, and the one before it closed |
| ReplyStream.Reply.Take | engine/src/api.c:1436-1465 | A token's bytes are kept, and the reply is cut where the earliest stop sequence begins, if one is complete; a reply streamed and not stopped has been fed up to the last whole character before the longest end that may begin a stop sequence, and all of that is said |
| ReplyStream.Reply.AllSureIsSaid | engine/src/api.c:1279-1308 | Of a reply read back while it is streamed, whatever is sure of the text fed has been reported |
| ReplyStream.Reply.Finish | engine/src/api.c:1279-1308 | At the end the parts kept are those of the whole text, all closed, and what a client rebuilt from the deltas is those parts |
| ReplyStream.RunReply | engine/src/api.c:1161-1308 | For every split into tokens and every set of stop sequences, the parts are those of the text cut at its earliest stop, streamed or not, and the client's copy equals them |
| ChatCall.ReportCall | engine/src/chat.c:434-465 | The trimming loops and the parser give for every block the call, or none, that BlockIsACall describes |
| ChatCall.BlockIsACall | engine/src/chat.c:434-465 | A block is a call exactly when what is between the whitespace at its ends is an object whose first name is a string, not empty; none or null for arguments is an empty object, a string that holds an object is that object, and anything else is itself as Python writes it |
| ChatCall.BodyReadsBack | engine/src/chat.c:434-465 | A call's body around the text of any object below the level limit is read as that name and that object as it is written |
| ChatCall.WriteCall | engine/src/chat.c:314-333 | What the template appends for a call, with or without a function object, with arguments as text, as a value or absent, between its tags |
| ChatCall.CallRoundTrip | engine/src/chat.c:314-465 | A call written by the template, its name free of quotes, escapes and control bytes and its arguments a finite object or an object's text, is read back as that call |
| ChatTurn.FindFirstLoop | engine/src/chat.c:185-191 | The first place a string stands in another, or none |
| ChatTurn.FindLastLoop | engine/src/chat.c:193-200 | The last place, or none |
| ChatTurn.TakenApartAsPython | engine/src/chat.c:292-304 | Finding the first and the last tag takes content apart as the template's chain of splits and strips does |
| ChatTurn.TakeApart | engine/src/chat.c:288-305 | The reasoning and the content of a message, from its own member or from the tags in its content |
| ChatTurn.LastQuery | engine/src/chat.c:264-274 | The last user message that is not a tool response, or the last message when there is none |
| ChatTurn.WriteTurn | engine/src/chat.c:288-335 | An assistant's turn as it is appended: its reasoning kept only after the last query and there only when last or not empty; any other turn is its message's own content and calls, the content first and, with no calls, alone |
| ChatTurn.TurnIsOwn | engine/src/chat.c:288-335 | A turn without its reasoning begins with its message's own content, split from the reasoning as the template's Python splits it, is exactly it when there are no calls, and with calls and no tag inside is read back as that content and those calls |
| Spelling.TurnLooksSo | engine/src/chat.c:306-333 | What stands between a turn's markers, letter by letter: the thinking tags, each on its line, a blank line, the content, and the calls |
| Spelling.CallsLookSo | engine/src/chat.c:314-333 | Calls one after another, each on a line of its own, the first too when there is content |
| Spelling.CallLooksSo | engine/src/chat.c:314-333 | A call, letter by letter: its tags on lines of their own around an object of name and arguments |
| Spelling.TagsSay | engine/src/chat.c:359-362 | The tags a reply is cut at, letter by letter |
| ChatTurn.WriteFinalTurn | engine/src/chat.c:264-338 | A conversation's last turn keeps its reasoning exactly when some query came before it |
| ChatTurn.TurnReadBack | engine/src/chat.c:288-568 | A final turn with no tag of another's inside is read back by the reply parser as its reasoning stripped, its text and its calls |
| ChatTurn.ReasoningReadBack | engine/src/chat.c:306-530 | Whatever the text and the calls, the reasoning read back is the reasoning written exactly when it has no closing tag inside |
| TurnExact.CallsReadBack | engine/src/chat.c:314-568 | When no tag is in the reasoning or the text, a turn is read back as it is exactly when no call's body has a closing tag inside; one that has is read as text |
| TurnExact.TextReadBack | engine/src/chat.c:306-568 | A turn without calls is read back as it is exactly when the tags in its text leave it text: no newline before a block, no block a call, no whitespace after one |
| TurnTags.TextBefore | engine/src/chat.c:496-568 | Text with any tags in it, before a call: it is read as itself when it stands, and otherwise what is read does not begin with it or says more |
| TurnTags.TurnReadsBack | engine/src/chat.c:288-568 | A final turn, whatever tags are in its reasoning, text and calls, is read back whole exactly when its reasoning has no closing tag inside, its text stands before what follows it, and no call's body has a closing tag inside |
| TurnExact.TagsReadBack | engine/src/chat.c:496-527 | An opening tag alone is read back as it is; after a newline it is not |
| ConvertRun.Builder.AddText | engine/src/convert.c:138-141 | Text joins the open turn's content with a newline between, also when either is empty |
| ConvertRun.ConvertChat | engine/src/convert.c:255-355 | Turns gathered in buffers and flushed once whole give the chat request's messages as the function says, which says them as ChatConverts and ChatRefused describe |
| ConvertRun.ConvertMessages | engine/src/convert.c:385-540 | The same of a Messages request: blocks of a user's turn split into tool results and text, an assistant's gathered, as MessagesConvert, MessagesJoin and MessagesRefused describe |
| ConvertRun.ConvertResponses | engine/src/convert.c:622-730 | The same of a Responses request: items of a flow, reasoning held until its turn, as ResponsesConvert and ResponsesRefused describe |
| ConvertRun.ConvertTools | engine/src/convert.c:200-214 | The loop over the tools of a request of any shape, nested namespaces included, gives the list of tools that SameTools describes, or the refusal that ToolsRefused does |
| ConvertAgree.ArgumentsAlike | engine/src/convert.c:155-172 | A call's arguments given as an object and as the text of that object become the same bytes |
| ConvertAgree.LinesHold | engine/src/convert.c:47-72 | Pieces of text become one as long as all of them and a newline between each two, each piece at its own place and a newline after each but the last |
| ConvertAgree.WordsRead | engine/src/convert.c:54-72 | Text given whole or in parts of a known kind is read as its pieces joined |
| ConvertAgree.ChatConverts | engine/src/convert.c:255-338 | Any conversation's chat request, each message's text whole or in any number of parts, becomes the messages the conversation says |
| ConvertAgree.MessagesConvert | engine/src/convert.c:385-522 | So does its Messages request |
| ConvertAgree.ResponsesConvert | engine/src/convert.c:622-729 | So does its Responses request, where calls come after their message or, with no text, open a turn of their own with the reasoning before them |
| ConvertAgree.OneConversation | engine/src/convert.c:255-730 | For any system text, asks, results, reasoning, replies and calls, each text whole or in pieces and each reasoning in pieces, the three requests become the same messages |
| ConvertAgree.SameTools | engine/src/convert.c:200-226 | Any list of tools offered in any of the three shapes becomes the same list |
| ConvertRefuse.ChatRefused | engine/src/convert.c:255-338 | But for its tools and its choice of one, a chat request is refused exactly for functions or a forced function call, no messages, or a message with no role there is, a name, a function call, no text, or a tool call without a name |
| ConvertRefuse.MessagesRefused | engine/src/convert.c:385-522 | But for its tools and its choice of one, a Messages request is refused exactly for a system text or a message that cannot be said, no messages, or ending in an assistant's turn that uses a tool, however many messages that turn takes |
| ConvertRefuse.MessagesJoin | engine/src/convert.c:385-522 | Two messages in a row of the same side are one turn: they become what one message with the blocks of both becomes |
| ConvertRefuse.StringIsBlock | engine/src/convert.c:385-522 | A string is one block of text |
| ConvertRefuse.ResponsesRefused | engine/src/convert.c:622-730 | But for its tools and its choice of one, a Responses request is refused exactly for instructions that are no text, no input, or an item that cannot be said |
| ConvertRefuse.ToolsRefused | engine/src/convert.c:200-226 | The tools of a request are refused exactly when one of them is none that its shape may list |
| Solo.AloneIsOver | engine/src/api.c:1403-1466 | A reply alone ends within the tokens asked for, and any number of single steps that ends it gives that same reply |
| Solo.AloneIsSpoken | engine/src/api.c:1403-1466 | In a reply alone each token is the one taken from the row after the prompt and the tokens before it, by the text and the sampler the one before left; only the last ends it, and with none that does there are as many as were asked for |
| Drafting.GuessIsAnEcho | engine/src/api.c:1477-1497 | Drafts are the tokens that followed the last place the final three tokens, or else two, stood before, k of them or as many as there are; none exactly when the last two never stood before |
| Drafting.Draft | engine/src/api.c:1477-1497 | The loops find that guess, or none while waiting, and count one wait down |
| Drafting.WaitsDouble | engine/src/api.c:1499-1506 | After failures in a row the waits are 1, 2, 4, 8 and then 16 for good |
| Lending.CommonIsTheLongest | engine/src/api.c:1622-1626 | No longer beginning is common to two prompts than the one counted, and where the count stopped is where they part |
| Lending.Sequence.KeepPrefix | engine/src/api.c:1683-1690 | A sequence keeps exactly the longest prefix of the prompt it holds, short of the last token, and forgets the rest |
| Serving.AllowedIsServable | engine/src/api.c:2246-2280 | A request is refused exactly with no prompt, with no room, or asking for more than the room (but for Messages, which takes the room there is); one that is not refused fits the context to its last token, and may take as many as it wants, or for Messages as many as fit |
| Serving.AdmittedAsAsked | engine/src/api.c:2246-2292 | What is queued is the request as it came, and its tokens are those it asks for (else the room in a chat, else 16), less only when a Messages request wants more than fit and then up to the context; nothing else is refused |
| Serving.PieceIsEnough | engine/src/api.c:1757-1772 | A piece of a prompt leaves at least the least the model runs alike and half a piece, and is itself that long whenever the least is at most a piece; and a piece, of 512 tokens or of 8, is split off exactly when it leaves that much |
| Serving.Job.Begin | engine/src/api.c:1637-1745 | A request starts with the reused prefix in place of its first tokens |
| Serving.Job.Prompt | engine/src/api.c:1757-1793 | After a piece, or all of it, the sequence holds that much of the prompt; after the last piece the first token is the one taken alone |
| Serving.Job.TakeToken | engine/src/api.c:1572-1585 | A token taken with a shared sampler loaded with the request's own state is the token taken alone, and the state kept is the one alone |
| Serving.Job.Plan | engine/src/api.c:1955-1980 | A request's rows in a round are its next token and at most the spare drafts, within what is left to take and the context |
| Serving.Job.TakeDrafted | engine/src/api.c:1817-1849 | A pass with drafts gives the tokens single steps would give, and its sequence then holds exactly what single steps would hold |
| Serving.Job.RowFailed | engine/src/api.c:1799-1830 | The first of its rows that did not run ends a request, the tokens before it kept, and the model failed at that very step |
| Serving.Job.TakeRows | engine/src/api.c:1799-1851 | Whatever rows ran, with drafts or without, the reply is a beginning of the one alone, less is left to do, and every row run for it is counted once |
| Serving.Job.AnsweredIsAlone | engine/src/api.c:1747-1851 | An answer is a beginning of the reply alone, and all of it with its count of tokens unless a step asked for it failed or its client left; and it asks for no more steps than its prompt, its tokens and their drafts can need |
| Rounds.RoundFits | engine/src/api.c:1589-1612 | The rows allotted hold one row each and every spare one, however many requests decode |
| Rounds.DraftsAddNoPass | engine/src/api.c:1951-1952 | Beside other requests, drafts add no pass of the model |
| Rounds.SpareIsAll | engine/src/api.c:1951-1952 | One draft more than is spare would add a pass; a request alone may use every draft it may make |
| Rounds.StopsWhereItFails | engine/include/model.h:256-274 | Where a request's rows that fit the context stop, the model failed at that row: nothing the scheduler did stops them |
| Rounds.BlockFed | engine/include/model.h:256-274 | The rows a sequence ran in a round, when it stops at its first failure, are the beginning of its own block |
| Scheduling.Scheduler.PickSeq | engine/src/api.c:1617-1633 | The free sequence with the longest reusable prefix, the one unused longest among equals; none only when all are lent |
| Scheduling.Scheduler.Lend | engine/src/api.c:2194-2209 | Waiting requests get sequences in order, no sequence is lent twice, and none waits while nothing runs |
| Scheduling.Scheduler.PromptSome | engine/src/api.c:2214-2222 | Prompts run whole while nothing decodes and otherwise one piece of the oldest, so something always advances |
| Scheduling.Scheduler.ShareTurns | engine/src/api.c:1909-1940 | In turn or over the pool's threads, each of a round's requests has exactly one turn, with a sampler there is |
| Scheduling.Scheduler.TakeAll | engine/src/api.c:1909-1940 | In whatever order the turns come, each request that decodes takes its tokens from the rows run for it, counted exactly once, and every other is unchanged |
| Scheduling.Scheduler.Round | engine/src/api.c:1946-1985 | A round leaves every decoding request less to do and every reply a beginning of its own reply alone |
| Scheduling.Scheduler.HandBack | engine/src/api.c:2226-2243 | The requests that ended leave, their sequences free again; no request is lost |
| Scheduling.Scheduler.Turn | engine/src/api.c:2187-2244 | While a request is open, a turn leaves less to do, and every open request stays open or is answered |
| Scheduling.Scheduler.Serve | engine/src/api.c:2180-2280 | For any arrivals, refusals, order, splits, reuse, drafts and failures: the requests served are those that arrived and were not refused, in order, each allowed the tokens it asked for; each is answered, each reply is a beginning of the one alone, and the whole of it, counted right, unless the model failed at one of the steps it was asked for that request, a bounded number, or that request's client left |
| Ring.Push | engine/src/expert_stream.c:371-372 | Writing at head plus length, wrapped, appends to the queue the ring holds |
| Ring.Pop | engine/src/expert_stream.c:178-182 | Taking at the head, wrapped, leaves the rest of the queue |
| ExpertPlan.MakePlan | engine/src/expert_stream.c:215-255 | A plan exists exactly when the parts are one to three, none empty, each in a file there is; its runs are whole sectors, apart in the slot, no wider than they must be, and each part lies inside one |
| ExpertStream.Stream.WorkerStep | engine/src/expert_stream.c:172-206 | Any awake worker's step, falling asleep included, keeps every invariant, touches no ready or held slot, and brings the reads nearer their end; it wakes who waits exactly when a read is over |
| ExpertStream.Stream.SomeWorkerCan | engine/src/expert_stream.c:172-206 | While a slot is being read some worker is awake, although workers sleep and each read queued wakes one at most: no signal is lost |
| ExpertStream.Stream.WaitDone | engine/src/expert_stream.c:386-388 | A client that sleeps while a slot is being read is woken: a read finishes, whatever the workers do |
| ExpertStream.Stream.FreeSlot | engine/src/expert_stream.c:344-359 | An unheld slot nothing reads into, empty first, else least used, else least recently used; none only when none is free |
| ExpertStream.Stream.UnheldIsRead | engine/src/expert_stream.c:386-389 | With fewer holds than slots and none free, some slot nobody holds is being read, so holding never waits for ever |
| ExpertStream.Stream.Hold | engine/src/expert_stream.c:377-411 | As long as there are slots for every hold (the header asks for half of them at most), each place is held once more, whatever the workers did meanwhile, and what was held or read already stays put |
| ExpertStream.Stream.Wait | engine/src/expert_stream.c:426-466 | Either every place is read and the pointers show exactly the drive's bytes, or none of them is held any more and one that was not read before has a read that failed: its file ends too soon, or the drive gave less than asked |
| ExpertStream.Stream.Acquire | engine/src/expert_stream.c:413-418 | Holding and waiting together: the bytes, or everything as it was held before and a read of one of the places that failed |
| ExpertStream.Stream.Release | engine/src/expert_stream.c:468-475 | Each place is held once less and all others stay put |
| ExpertStream.Stream.HoldReady | engine/src/expert_stream.c:477-489 | A place is held, and its bytes shown, exactly when it was read already |
| ExpertStream.Stream.Prefetch | engine/src/expert_stream.c:500-510 | Each place asked for is then being read, or was in the cache, up to one for which no slot was free; all that was done is that so many free slots were given away, each to be read for one of those places, and no slot still free should have gone before one of them; no held place moves |
| ExpertStream.Stream.Run | engine/src/expert_stream.c:172-517 | In any interleaving of calls and workers' steps every call is answered by the rules; what is held is what the answered calls leave, what is shown is exactly what was waited for well or found ready and held ever since, and each place of it shows exactly the drive's bytes |
| ExpertStream.ShownSince | engine/src/expert_stream.c:426-489 | The places shown by a log of calls are those some call showed that were held after that call and after every one since |
| ExpertStream.Open | engine/src/expert_stream.c:257-325 | A stream opens exactly with files, readable places, a thread and two slots or more, and starts with nothing held |
| Pool.Pool.Step | engine/src/pool.c:36-86 | Any awake thread's step, the job's fields read without the lock and falling asleep included, keeps the invariant and brings the job nearer its end |
| Pool.Pool.SomebodyCan | engine/src/pool.c:36-105 | While a job is under way some thread is awake and can go on, threads sleeping until the broadcasts of a new job or of its last task: no wake-up is lost |
| Pool.Pool.Run | engine/src/pool.c:92-105 | In any interleaving every task of a job is called exactly once, with that job's own function and argument, and every call has finished when the caller leaves |
| Pool.ShareOut | engine/src/encoder.c:94-177 | Tasks shared out over threads each have exactly one turn, in some order, by a thread there is |
| Sha256Spec.RoundConstants | engine/src/crypto.c:6-31 | Each constant is the first 32 bits of the fraction of a prime's cube root, as section 4.2.2 of FIPS 180-4 defines it |
| Sha256Spec.InitialHash | engine/src/crypto.c:80-91 | The initial words likewise from square roots, as section 5.3.3 defines them |
| Sha256Spec.AbsorbMore | engine/src/crypto.c:93-120 | Absorbing a message is absorbing a beginning of it, then what that left over with the rest |
| Sha256Spec.PaddedIsWhole | engine/src/crypto.c:122-140 | A padded message is whole blocks with room for the mark and the length and no block too many |
| Sha256Example.DigestOfAbc | engine/tests/unit_tests.c:962-963 | The digest of abc, through every word of the schedule and every round, is the one FIPS 180-4's examples and the repository's own test give |
| Sha256.Transform | engine/src/crypto.c:33-78 | The in-place rounds over shifted words are the standard's compression of a block |
| Sha256.Context.Update | engine/src/crypto.c:93-120 | The context then stands for the message with the piece at its end |
| Sha256.Context.Final | engine/src/crypto.c:122-146 | The octets written are the standard's digest, for messages under 2^61 octets; for longer ones, of the message padded with its length modulo 2^64 |
| Sha256.DigestOfPieces | engine/src/crypto.c:80-146 | However a message is cut, the digest is that of the whole |
| Sha256.LengthFieldTells | engine/src/crypto.c:122-140 | The length field written is the message's length in bits exactly for messages under 2^61 octets |
| Tiles.DotAvx2 | engine/src/encoder.c:208-215 | The in-place sums are the dot product everything below is compared with: eight lanes each summed in order, the tree that adds them up, and what is left over one by one |
| Tiles.DotAddsUp | engine/src/encoder.c:208-215 | A dot product adds the product of every pair once: modulo 2^32 it is their sum |
| Tiles.OutputAddsUp | engine/src/encoder.c:222-278 | An output is the row of one matrix by the row of the other, laid out flat, and its bias: modulo 2^32 that sum |
| Tiles.CellsApart | engine/src/encoder.c:222-278 | Two outputs of different row or column never share a cell |
| Tiles.DenseAvx2 | engine/src/encoder.c:222-278 | Four rows by three outputs at a time with every tail: each output j0 to j1 - 1 of each row is one dot product alone plus its bias, and no other cell changes |
| Tiles.OneTaskEach | engine/src/encoder.c:445-464 | Every output lies in exactly one task's chunk of 24, and no task is empty |
| Tiles.Dense | engine/src/encoder.c:445-464 | Shared out over any number of threads, every output of the product is one dot product alone plus its bias, tasks taken as whole steps since each writes cells of its own |
| Matvec.MatvecF32 | engine/src/ops.c:181-194 | Each output is the row's dot product in two sums of eight lanes |
| Matvec.RowAddsUp | engine/src/ops.c:181-194 | An output adds every product of its own row and the vector once: modulo 2^32 it is their sum |
| Matvec.DotBlocks | engine/src/ops.c:196-216 | The sums running on from block to block are the widened row's dot product |
| Matvec.WidenedRow | engine/src/ops.c:196-216 | A row of the widened matrix is the widening of that row's own bytes |
| Matvec.MatvecBlocks | engine/src/ops.c:196-216 | For any format of blocks of whole sixteens and rows of whole blocks, each output is the very expression MatvecF32 gives on the widened matrix |

## Left out

- Device loss, out of memory, the hooks for tests and the statistics: the paths that give up, and the counters read by nothing else.
- The JSON text of converted messages and tools: they stay values, written by the same writer as everything else.
- In the converters: `tool_choice`, the thinking switches, which words a refusal says, and the notes about ignored tools.
- Spurious wake-ups, after which a thread tries its guard again and sleeps on.
- In the template: the tools' preamble and the system, user and tool turns, which copy text between markers.
- Error messages and their positions in the JSON parser, and the arena it allocates from.
- Wrap-around of the 64-bit clocks and counters, other than the length in SHA-256, which is modelled.
- The bytes of a packed block: a row's bytes are its blocks' bytes, and widening a block is an uninterpreted function (`quant.c` is not modelled).
- Attention, the NEON and bfloat16 products, and the scalar dense path, which is one dot product each.
- Threads starting and stopping, and the system calls that read a file: each gives any number of the bytes asked for, or an error. One interrupted and made again is one call.
- The tokenizer, the sampler's choice, the model's own layers and its cache of keys and values (`kv_cache.c`): functions the promise is stated over.
- HTTP, the model files and their catalogue, downloads and installation: mostly text in and out, with no claim that spans them.
