# A verified model of the Kaos, Kosong, OAuth, ACP and vault cores

This project models, in Dafny 4.11, the parts of the repository where a fast or
interleaved form has to mean the same as a simple one, and proves that it does.
`dafny verify dfyconfig.toml` checks it. The statements are about the model, which
follows the TypeScript code branch by branch; nothing was executed.

| part | modules | question |
|---|---|---|
| text engine | `Lines`, `Utf8`, `Utf8Validator`, `Utf16`, `TextLines`, `LineReaders`, `TailReader`, `TextScan`, `ContentTag` | do chunked readers, the backward scan, the one-pass scanner and the streaming tag compute what the whole file says? |
| glob | `Glob`, `GlobOrder` | which paths does the recursive walk yield, how often and in which order, when directories form cycles? |
| stream assembly | `StreamAssembly` | does each parallel tool call get its own argument deltas, and is content conserved? |
| OAuth refresh | `RefreshProtocol`, `RefreshAnswers`, `RefreshCoalescing` | can interleaved processes replay, lose or wrongly condemn a rotating token? |
| ACP turns | `WireIds`, `AcpTurn` | does every tool call get created once and before its updates, and the promise settled once? |
| vault and shell | `LinkScoring`, `FrontMatter`, `WrittenNotes`, `ShellQuoting`, `ShellCharacters` | are the spread scores exact, and do printers and readers agree? |

`Wrappers` and `Bytes` hold an option type, the byte and code unit types and facts
about joining sequences.

## How the source is modelled

- A file is a sequence of bytes; decoded text is a sequence of UTF-16 code units, as
  JavaScript holds it. Chunk and block sizes are any positive numbers.
- The streaming code is imperative: buffers are arrays which every read overwrites,
  the validator, the content-tag hasher, the line-ending flags, the message, the OAuth
  manager and the turn body are classes whose fields the methods update, and each method
  is proved against a function of everything it has been given. The theorems are about those functions.
- Reads through one buffer, and the positional reads of `readRange`, may be short at
  will. The block reads of the tail scan are assumed to fill their block.
- The refresh protocol is a state machine with one step per `await`, over any number of
  processes. It assumes what the code relies on: the lock excludes, reading and saving are
  atomic and succeed, and the server rotates, that is, a granted refresh issues a new token
  and spends the old one (sections 6 and 10.4 of RFC 6749). A request that fails in any other
  way has no effect at the server: no response is lost and no process dies between a grant
  and its save. The server may withdraw its token at any moment, and may be unavailable.
- What foreign code decides is a parameter: the decoder of a line (any function, which
  may reject), the test of one path segment against one pattern segment, lower-casing,
  and what counts as blank. The hash is the sequence of bytes fed to it.
- Scores are real numbers.

## Where the code differs from what one might expect

- `_readUtf8Lines` yields a line before it compares with `maxLines`, so a limit below 1
  acts as 1. The model has it so.
- A last line without newline of which lenient decoding leaves nothing is yielded as an
  empty string by `readLines` in ignore mode, but is no line of the decoded text
  (`TextLines.LinesAgreeIff`, `TextLines.LostLastLineExample`). The tail reader agrees with the
  decoded text even there (`TailReader.TailAgrees`).
- Rewriting line endings can change a content tag: a CR-ended line before an empty LF-ended
  one puts CR and LF side by side (`ContentTag.TagIgnoresEndings` has the exact condition).
  Two byte order marks are not stripped to none (`ContentTag.TagIgnoresOneBom`).
- Patterns with two `**` can yield a path twice (`Glob.DuplicatesIffTwoStars`).
- A delta with an unannounced index is merged into whatever call is open
  (`StreamAssembly.UnroutedDeltaHarmlessIff`).
- The comment at the argument accumulator says that no state leaks across turns. The listener
  does not exclude two turns of the main agent that interleave deltas under one raw id, and they
  would mix (`AcpTurn.InterleavedTurnsMix`; `AcpTurn.OwnTextIffUnmixed` says when). The agent
  core does exclude it: it refuses to launch a turn while one is active
  (`packages/agent-core/src/agent/turn/index.ts`, lines 262-275) and ends each with a
  `turn.ended`, which settles the prompt, before it starts another (lines 782-820). So within one
  subscription the events are those of one turn (`AcpTurn.OneTurnNeverMixes`).
- A logout between a peer's refresh and a waiting process's re-read makes that process replay
  a spent token (`RefreshProtocol.LogoutReplays`, `RefreshProtocol.LogoutReplaysIff` and
  `RefreshProtocol.LogoutReplaysInsideIff`).
- A first argument such as `A=b` is safe enough to stay unquoted, so the shell takes it for a
  variable, and one such as `a+=b` or `1=2` may be taken for one, which the standard leaves
  open; a reserved word such as `if`, a word a shell may reserve such as `function`, or a name
  and a colon likewise stay unquoted. Without arguments and variables the text for a directory ends in
  `&&`, though `exec` itself refuses that call (`ShellQuoting.CommandUnderstoodIff`).
- Front matter with CRLF line endings loses its values: the patterns stop at a CR, so keys get
  empty lists and items are ignored (`WrittenNotes.CarriageReturnLoses`).
- JSON escapes are printed by `buildFrontmatter` but not undone by `parseFrontmatter`
  (`FrontMatter.ParsePrinted`, `FrontMatter.RoundTripsIff`).

## Model

| member | source | states |
|---|---|---|
| `Lines.SplitIsTheOnlyOne` | packages/kaos/src/local.ts:781-793 | A list of lines is the split of a text if and only if the lines join to the text, only the last may lack its line feed, none is empty and no line feed stands inside a line; so "the lines of a file" means one thing everywhere below |
| `Lines.SplitLinesKeepingTerminator` | packages/kaos/src/local.ts:781-793 | The generator yields exactly that split of its text |
| `Lines.SplitCut` | packages/kaos/src/local.ts:781-793 | Cutting a text right after a line feed (or at its start) cuts its list of lines |
| `Lines.SplitCount` | packages/kaos/src/local.ts:512-525 | The number of lines is the number of line feeds, plus one for an unterminated last line |
| `Utf8.ReadOne` | packages/kaos/src/internal.ts:13-79 | One turn of the loop reads the step the specification takes at that position, for every lead byte and every truncation |
| `Utf8.DecodeUtf8Ignore` | packages/kaos/src/internal.ts:7-82 | The loop over `i` and `output` returns the decoding of the whole input, for any bytes |
| `Utf8.AdvanceReadsEncoding` | packages/kaos/src/internal.ts:17-75 | At a position the decoder reads a code point if and only if the bytes there begin with its encoding (section 3 of RFC 3629): overlong forms, surrogates and values above U+10FFFF are never read, and every scalar value is |
| `Utf8.ScalarsAreTheEncodedOnes` | packages/kaos/src/internal.ts:7-82 | What is decoded from any bytes is what one finds by looking for an encoded scalar value at every single position: all that is dropped is bytes belonging to no encoding, nothing is read twice and the order is kept |
| `Utf8.DecodeInvertsEncode` | packages/kaos/src/internal.ts:7-82 | Decoding the encoding of any sequence of scalar values gives the sequence back |
| `Utf8.DecodeEncode` | packages/kaos/src/internal.ts:7-82 | The same in front of arbitrary further bytes: what follows cannot disturb a complete encoding |
| `Utf8.ScalarsAtLf` | packages/kaos/src/internal.ts:7-82 | For arbitrary bytes, valid or not, decoding distributes over every line feed |
| `Utf8.DecodeAtLf` | packages/kaos/src/internal.ts:7-82 | The same for the UTF-16 text that JavaScript holds |
| `Utf8.DecodeCut` | packages/kaos/src/internal.ts:7-82 | Decoding distributes over every cut right after a line feed |
| `Utf8.NoLfDecoded` | packages/kaos/src/internal.ts:7-82 | A line feed is only ever decoded from a line feed byte |
| `Utf8Validator.Validator.Write` | packages/kaos/src/local.ts:831-867 | The closure over `needed`, `lower` and `upper` fails on a chunk exactly when the byte automaton does, and else is in its state |
| `Utf8Validator.Validator.End` | packages/kaos/src/local.ts:868-870 | For whatever has been written so far, the end is accepted if and only if those bytes as a whole are |
| `Utf8Validator.FeedCut` | packages/kaos/src/local.ts:831-867 | The state after two chunks is the state after their concatenation, so chunking cannot matter |
| `Utf8Validator.EncodedAccepted` | packages/kaos/src/local.ts:835-865 | Where the decoder reads a code point, the validator takes its bytes and is back in its start state |
| `Utf8Validator.OtherwiseRejected` | packages/kaos/src/local.ts:835-870 | Where it reads none, the validator throws, at once, later or at the end |
| `Utf8Validator.AcceptsIffReencodes` | packages/kaos/src/local.ts:821-872 | The validator accepts a file if and only if encoding what the lenient decoder makes of it gives the file back |
| `Utf8Validator.AcceptsExactlyEncodings` | packages/kaos/src/local.ts:821-872 | It accepts exactly the encodings of sequences of scalar values |
| `Utf16.DecodeUtf16LeIgnore` | packages/kaos/src/internal.ts:84-121 | The loop returns the UTF-16LE decoding, whose values are scalar values by type: a surrogate is never output on its own |
| `Utf16.DropsExactlyUnpaired` | packages/kaos/src/internal.ts:84-121 | For any bytes the output is the code units with exactly the unpaired surrogates taken out, and an odd last byte ignored |
| `Utf16.ScalarsOfFromCodePoints` | packages/kaos/src/internal.ts:84-121 | Reading the UTF-16 code units of a sequence of scalar values (section 2.1 of RFC 2781) gives the sequence back |
| `Utf16.DecodeLeInvertsEncodeLe` | packages/kaos/src/internal.ts:84-121 | Decoding inverts the little-endian encoding (sections 2.1 and 2.2 of RFC 2781), also with one stray byte after it |
| `TextLines.SplitDecoded` | packages/kaos/src/local.ts:781-793 | For arbitrary bytes the lines of the decoded text are the decoded lines of the bytes, less an unterminated last line of which nothing is left |
| `TextLines.LinesAgreeIff` | packages/kaos/src/local.ts:475-490 | Decoding line by line and splitting the decoded file agree if and only if there is no such lost last line |
| `TextLines.AcceptedLosesNothing` | packages/kaos/src/local.ts:821-872 | A file the validator accepts has no lost last line |
| `TextLines.LostLastLineExample` | packages/kaos/src/local.ts:644-649 | The one-byte file 0x80: one reader yields an empty line where the other yields none |
| `LineReaders.ReadUtf8Lines` | packages/kaos/src/local.ts:598-653 | For every file, buffer size, way of short reads, decoder, start line and limit, what is yielded is the selected lines of the file, each decoded by itself with its true offset, up to the first the decoder rejects; the array in which lines are found is overwritten by every read |
| `LineReaders.ScanChunk` | packages/kaos/src/local.ts:618-640 | One chunk: every line that ends in it is yielded once, an early return has yielded everything selected, and what is unfinished is carried |
| `LineReaders.JoinLine` | packages/kaos/src/local.ts:623-625 | A line joined from carried pieces and the current chunk is the slice of the file from its true start offset |
| `LineReaders.CarryOver` | packages/kaos/src/local.ts:636-641 | The start of an unfinished line is copied into arrays other than the reused buffer, so it survives the next read |
| `LineReaders.TakeLine` | packages/kaos/src/local.ts:626-633 | Yielding a line moves every partial result to the right one, including the throw and the stop after the last wanted line |
| `LineReaders.Finish` | packages/kaos/src/local.ts:644-649 | At the end of the file nothing selected is missing |
| `LineReaders.SegmentsAreSlices` | packages/kaos/src/local.ts:623-627 | Each segment is the slice of the file at its own offset; only the first has offset 0 and may lose a byte order mark |
| `LineReaders.RangeIs` | packages/kaos/src/local.ts:603-647 | What is yielded, line by line and by number: text i is line first + i decoded, with its byte order mark kept unless it is the first line of the file; it stops at the end, after the limit (at least one line), or with the throw of the decoder, and nowhere else |
| `LineReaders.ReadRange` | packages/kaos/src/local.ts:874-887 | Positional reads, however short, give the bytes of the range that exist |
| `TailReader.TailStartUnique` | packages/kaos/src/local.ts:557-589 | The first byte of the last min(N, n) lines is the only line start with that many lines after it |
| `TailReader.TailStartIsTail` | packages/kaos/src/local.ts:557-589 | Cutting there gives whole lines: the last min(N, n) of the file behind the cut, the others before it |
| `TailReader.FoundStart` | packages/kaos/src/local.ts:578-586 | The line feed at which the backward scan stops is the byte before that start, with or without a final newline |
| `TailReader.NotEnough` | packages/kaos/src/local.ts:589 | A scan that sees too few line feeds has to start at offset 0 |
| `TailReader.ScanBlock` | packages/kaos/src/local.ts:578-586 | One block scanned backwards: the count is of all line feeds from the block on, or the start has been found |
| `TailReader.ReadTailLines` | packages/kaos/src/local.ts:550-596 | For any block size, decoder and file the result is the decoded and split text from that start; nothing for a count below 1 or an empty file |
| `TailReader.RangeDecodesLines` | packages/kaos/src/local.ts:538-548 | In ignore mode, for any file, `readLineRange` yields the selected lines, each decoded |
| `TailReader.TailAgrees` | packages/kaos/src/local.ts:550-596 | In ignore mode, for any file at all, the tail is the end of the lines of the decoded text |
| `TailReader.ReadersAgree` | packages/kaos/src/local.ts:475-653 | For accepted files in ignore mode all readers agree: `readLines` is the split decoded file, a range is its slice, the tail is its last min(N, n) lines, and the byte count of lines is n |
| `TextScan.OneMoreByte` | packages/kaos/src/local.ts:800-817 | How one more byte changes whether there is a CRLF, a bare LF or a CR followed by something else |
| `TextScan.UpdateLineEndingFlags` | packages/kaos/src/local.ts:795-819 | The flags describe everything seen so far, also across a chunk border between CR and LF |
| `TextScan.LoneCrAtEnd` | packages/kaos/src/local.ts:523 | A last CR is a lone one, so the flag set after the loop completes the description |
| `TextScan.CountChunk` | packages/kaos/src/local.ts:512-517 | The running count is of the line feeds, and the NUL flag tells whether a NUL byte occurred |
| `TextScan.ScanChunk` | packages/kaos/src/local.ts:509-520 | After a chunk every one of the six running results is right for all bytes so far, or the validator has thrown |
| `TextScan.ScanTextFile` | packages/kaos/src/local.ts:492-536 | For every file and chunking: it throws if and only if the file is not valid UTF-8, and else reports the number of lines, the final newline, NULs, each of the three line endings and the hashed bytes as the whole file has them |
| `ContentTag.NormalizeSnoc` | packages/kaos/src/content-tag.ts:27-41 | What one more byte adds to the normalised bytes depends only on whether a CR came before it |
| `ContentTag.ContentTagHasher.WriteByte` | packages/kaos/src/content-tag.ts:27-41 | One byte writes what is owed for a pending CR and for itself, and stays within the scratch buffer of one byte more than the chunk |
| `ContentTag.ContentTagHasher.WriteNormalized` | packages/kaos/src/content-tag.ts:23-44 | A chunk extends what has been written, so that it stays the normalisation of all bytes so far less an owed LF |
| `ContentTag.ContentTagHasher.Update` | packages/kaos/src/content-tag.ts:47-66 | Every chunk, also the first short ones that may be a part of a byte order mark, is added to the input; after the digest nothing is |
| `ContentTag.ContentTagHasher.Digest` | packages/kaos/src/content-tag.ts:67-73 | For every chunking the bytes hashed are the normalisation of the whole input without its byte order mark; a second digest throws |
| `ContentTag.NormalizeRemovesCr` | packages/kaos/src/content-tag.ts:12-15 | No CR is ever hashed |
| `ContentTag.NormalizeTwice` | packages/kaos/src/content-tag.ts:12-15 | Normalising is idempotent |
| `ContentTag.RenderedLines` | packages/kaos/src/content-tag.ts:27-41 | Plain lines written with any endings are normalised to the same lines with LF, unless a CR line is followed by an empty LF line, when the result is shorter |
| `ContentTag.TagIgnoresEndings` | packages/kaos/src/content-tag.ts:12-15 | Lines written with any endings, with or without a byte order mark, give the tag they have with LF exactly when no CR-ended line is followed by an empty LF-ended one (those two bytes are one CRLF) |
| `ContentTag.EveryFileIsRendered` | packages/kaos/src/content-tag.ts:12-15 | Every file is such a list of lines with endings, so the statement above is about all files |
| `ContentTag.TagIgnoresOneBom` | packages/kaos/src/content-tag.ts:51-63 | A byte order mark in front changes nothing exactly when there is none yet: only one is stripped |
| `Glob.GlobWalk` | packages/kaos/src/local.ts:341-447 | The recursive walk with its copied visited set yields, in order and with repetitions, the specified list, and it terminates on every finite directory graph, cyclic or not |
| `Glob.GlobBelow` | packages/kaos/src/local.ts:383-406 | What one entry contributes under `**` |
| `Glob.GlobNamed` | packages/kaos/src/local.ts:417-445 | What one entry contributes under a segment pattern |
| `Glob.WalkCounts` | packages/kaos/src/local.ts:341-447 | How often any path is yielded: the number of ways its names fit the pattern if the descent is free of repeated directories, plus the ways of a file under a final `**`; and not at all otherwise |
| `Glob.WaysIffFits` | packages/kaos/src/local.ts:354-371 | There is a way to fit if and only if the names can be divided into one piece for every pattern part, any names for `**` and one matching name for a segment |
| `Glob.DescendMeansDistinct` | packages/kaos/src/local.ts:392-400 | Skipping visited keys step by step means that the keys along the path are distinct and new |
| `Glob.GlobYields` | packages/kaos/src/local.ts:296-447 | Soundness and completeness: a path is yielded if and only if its names match the pattern, every proper prefix is a directory and no directory on the way, base included, is entered twice; a final `**` matches directories, files and the base |
| `Glob.OneStarOneWay` | packages/kaos/src/local.ts:354-371 | With at most one `**` names fit in at most one way |
| `Glob.GlobUnique` | packages/kaos/src/local.ts:365-368 | With at most one `**` no path is yielded twice |
| `GlobOrder.WalkInOrder` | packages/kaos/src/local.ts:369-446 | The paths come in the order of the choices that lead to them: at a `**` going no deeper comes first, and entries come as they are listed |
| `Glob.ManyWays` | packages/kaos/src/local.ts:354-371 | Where every name matches, names fit any pattern with enough of them, and a pattern with two `**` in at least two ways as soon as there is a name to spare |
| `Glob.GlobTwice` | packages/kaos/src/local.ts:365-368 | Every pattern with two or more `**` yields some path of some directory chain at least twice |
| `Glob.DuplicatesIffTwoStars` | packages/kaos/src/local.ts:365-368 | So a pattern can yield a path twice if and only if it has at least two `**` |
| `StreamAssembly.FlushPart` | packages/kosong/src/generate.ts:340-365 | A finished part goes to the content, or to the calls with its stream index registered, or nowhere |
| `StreamAssembly.RouteDelta` | packages/kosong/src/generate.ts:157-172 | Appending to an already flushed call keeps the whole message right for the stream so far |
| `StreamAssembly.MergePart` | packages/kosong/src/message.ts:141-172 | So does merging into the pending part, for text, thinking and arguments |
| `StreamAssembly.FlushPending` | packages/kosong/src/generate.ts:178-184 | Flushing the pending part makes the message itself right |
| `StreamAssembly.StartPart` | packages/kosong/src/generate.ts:176-185 | So does making a part the pending one, with and without something to flush |
| `StreamAssembly.CallsSnoc` | packages/kosong/src/generate.ts:157-185 | One more part changes at most the arguments of the one call that owns it |
| `StreamAssembly.CoalescedSnoc` | packages/kosong/src/message.ts:141-158 | Merging blocks one by one as they come is the same as joining neighbours of the whole stream, where a signed thinking block takes nothing more |
| `StreamAssembly.GroupsAreBlocks` | packages/kosong/src/message.ts:141-158 | For a stream in groups, where the parts of a group are all text, or all thinking unsigned up to the last, and neighbouring groups are not to be continued, the blocks are exactly the groups: all their text, or all their thinking and its signature |
| `StreamAssembly.EveryStreamIsGrouped` | packages/kosong/src/message.ts:141-158 | Every stream is in such groups, so the statement above is about all streams |
| `StreamAssembly.NeighboursShareIff` | packages/kosong/src/generate.ts:152-184 | Two successive content parts share a block if and only if both are text, or both are thinking and the first is unsigned, and nothing but routed deltas is between them; else the second starts a block |
| `StreamAssembly.TextIsOneBlock` | packages/kosong/src/message.ts:142-146 | A stream of text parts is one block with their concatenation |
| `StreamAssembly.Generate` | packages/kosong/src/generate.ts:135-235 | For every stream, well-formed or not: the content is the joined content parts, each call has its header and, in order, the deltas it owns, and the call fails exactly for an empty or thinking-only message |
| `StreamAssembly.OwnDeltasOnly` | packages/kosong/src/generate.ts:152-174 | With distinct header indices and deltas after their headers, the arguments of a call are its own followed by exactly the deltas with its index |
| `StreamAssembly.FoldIsConcatenation` | packages/kosong/src/message.ts:160-169 | That is, all their texts joined; null exactly if all of them are null |
| `StreamAssembly.InterleavingsAgree` | packages/kosong/src/generate.ts:152-174 | Two interleavings of the same per-call streams, mixed in any way with content, assemble the same calls |
| `StreamAssembly.UnroutedDeltaHarmlessIff` | packages/kosong/src/generate.ts:173-185 | Outside that domain, for every stream: a delta whose index nobody announced changes no call if and only if no call is open, it carries null, or it carries nothing and the open call already has arguments |
| `StreamAssembly.UnknownIndexLeaks` | packages/kosong/src/generate.ts:173-185 | For instance, right after a header a delta under any other index is appended to that call |
| `StreamAssembly.UnindexedDeltas` | packages/kosong/src/message.ts:160-169 | Deltas without an index right after a header all go to that call, in order, wherever in the stream this happens |
| `StreamAssembly.ContentConserved` | packages/kosong/src/generate.ts:176-203 | No text character, thinking character, signature or media part is lost, doubled or moved |
| `StreamAssembly.VerdictOfStream` | packages/kosong/src/generate.ts:205-235 | The two failures said in terms of the stream: nothing but unowned deltas; or thinking without a non-blank text part or a call |
| `RefreshProtocol.RevokedTombstone` | packages/oauth/src/token-state.ts:36-45 | A tombstone is read as revoked |
| `RefreshProtocol.InitInv` | packages/oauth/src/oauth-manager.ts:284-301 | The invariant holds when nobody is refreshing |
| `RefreshProtocol.StepKeepsInv` | packages/oauth/src/oauth-manager.ts:284-398 | Every step other than a logout, of any of any number of processes, keeps the invariant: one lock holder, the store is current, a holder that asks presents what is stored, and only a dead token is condemned |
| `RefreshProtocol.LogoutKeepsInvIff` | packages/oauth/src/oauth-manager.ts:246-248 | A logout keeps it if and only if no process is between its first read of the token and its last use of it |
| `RefreshProtocol.RunKeepsInv` | packages/oauth/src/oauth-manager.ts:284-398 | So does every interleaved run with logouts at such moments; the results below hold in all of these runs |
| `RefreshProtocol.StoredTokenIsLatest` | packages/oauth/src/oauth-manager.ts:363-367 | Whenever the lock is free the stored valid refresh token is the one the server issued last |
| `RefreshProtocol.MutualExclusion` | packages/oauth/src/oauth-manager.ts:314-315 | At most one process is inside |
| `RefreshProtocol.NoReplay` | packages/oauth/src/oauth-manager.ts:363-364 | Whoever asks the server presents the latest token and one that was never spent |
| `RefreshProtocol.SpentOnce` | packages/oauth/src/oauth-manager.ts:363-364 | No token is successfully spent twice |
| `RefreshProtocol.OnlyDeadTokensCondemned` | packages/oauth/src/oauth-manager.ts:368-389 | A process about to write a tombstone holds the stored token and the server has withdrawn it: a live token is never tombstoned |
| `RefreshProtocol.RecoveryAlwaysCondemns` | packages/oauth/src/oauth-manager.ts:375-383 | Under the lock the branch that adopts a peer's rotation after a denial is never taken |
| `RefreshProtocol.ForcedRefreshIsNew` | packages/oauth/src/oauth-manager.ts:337-351 | A forced call that settles for a peer's token under the lock returns one of another rotation than it started from (`RefreshAnswers.StartAnswersIff` says what it does before) |
| `RefreshAnswers.StartAnswersIff` | packages/oauth/src/oauth-manager.ts:284-306 | A call answers from the store at once if and only if it is unforced and the token there never expires, or has at least 300 seconds and at least half of a positive lifetime left; a forced call never does; without a token it is refused; else it goes for the lock |
| `RefreshAnswers.RereadAnswersIff` | packages/oauth/src/oauth-manager.ts:324-361 | Under the lock an unforced call answers from the store on the same condition, a forced one if and only if the stored token is of another rotation than the one it started from; else the stored token is presented, or refused if it has nothing to present |
| `RefreshAnswers.CallIsExplained` | packages/oauth/src/oauth-manager.ts:284-398 | Over every run, an answer is a token this very call was granted or one it read that meets these conditions, a refusal means an empty store, no refresh token, or a denial that left a tombstone, and any other error means the lock or the server failed |
| `RefreshAnswers.CondemnLeavesTombstone` | packages/oauth/src/token-state.ts:36-45 | The tombstone after a denial has neither token and no expiry, and keeps the scope and type of the token that was stored |
| `RefreshProtocol.TombstoneStep` | packages/oauth/src/oauth-manager.ts:291-330 | With a tombstone or no token stored the next step neither calls the server nor stores a token |
| `RefreshProtocol.TombstoneIsFinal` | packages/oauth/src/oauth-manager.ts:291-330 | After a tombstone no process ever calls the server again, and it stays until a logout |
| `RefreshProtocol.LogoutReplaysIff` | packages/oauth/src/oauth-manager.ts:332-336 | A logout before a process takes the free lock it waits for makes it fall back to its earlier snapshot, and it presents a token that is no longer the latest if and only if a peer has rotated it since |
| `RefreshProtocol.LogoutReplaysInsideIff` | packages/oauth/src/oauth-manager.ts:332-336 | The same, with the same condition, for the process that has the lock and has not read the store again |
| `RefreshProtocol.LogoutReplays` | packages/oauth/src/oauth-manager.ts:332-336 | Such a state is reachable: a run in which a spent token is presented again |
| `RefreshCoalescing.EventKeepsInv` | packages/oauth/src/oauth-manager.ts:254-282 | Calls, finishing runs, cleanups and resuming callers in any order keep the slot on the one unfinished run |
| `RefreshCoalescing.RunKeepsInv` | packages/oauth/src/oauth-manager.ts:254-282 | So does any sequence of them |
| `RefreshCoalescing.OneInFlight` | packages/oauth/src/oauth-manager.ts:272-280 | At most one refresh is in flight |
| `RefreshCoalescing.ClearsOwnSlot` | packages/oauth/src/oauth-manager.ts:272-279 | A cleanup finds its own promise in the slot and clears it |
| `RefreshCoalescing.ForcedGetsForced` | packages/oauth/src/oauth-manager.ts:258-269 | A forced caller only resolves with the result of a forced run that has settled |
| `RefreshCoalescing.ForcedCallWaits` | packages/oauth/src/oauth-manager.ts:258-281 | A forced call either joins a forced run, starts one, or waits for the unforced one and starts nothing |
| `RefreshCoalescing.CallIs` | packages/oauth/src/oauth-manager.ts:254-281 | Beside an unfinished run no call starts another: it shares that run, except that a forced call waits for an unforced one; otherwise it starts a run of its own kind |
| `RefreshCoalescing.WakeUpCallsAgain` | packages/oauth/src/oauth-manager.ts:266-269 | A forced caller that has waited does what a new forced call does, and changes no other caller |
| `RefreshCoalescing.LeavesOthersSlot` | packages/oauth/src/oauth-manager.ts:273-278 | In any state, reachable or not, a finishing run leaves a slot that is not its own |
| `RefreshCoalescing.OAuthManager.Call` | packages/oauth/src/oauth-manager.ts:254-282 | The method on its slot field does what the specification says |
| `RefreshCoalescing.OAuthManager.Cleanup` | packages/oauth/src/oauth-manager.ts:272-279 | The cleanup changes slot and runs as the step of the state machine does |
| `WireIds.IntToStringInjective` | packages/acp-adapter/src/events-map.ts:87-89 | Different integers are written differently |
| `WireIds.WireIdsDistinct` | packages/acp-adapter/src/events-map.ts:87-89 | Two calls have the same wire id if and only if turn and raw id are both the same, whatever characters the raw ids contain |
| `AcpTurn.TurnBody.HandleToolCallStarted` | packages/acp-adapter/src/session.ts:1035-1092 | Started: the accumulator is set, then an upgrade or a create is sent, then a plan |
| `AcpTurn.TurnBody.HandleToolCallDelta` | packages/acp-adapter/src/session.ts:1094-1135 | Delta: the first one creates and opens an accumulator, the others append to it and send all of it |
| `AcpTurn.TurnBody.HandleEvent` | packages/acp-adapter/src/session.ts:959-1206 | The listener, branch by branch, moves the fields as the state machine does |
| `AcpTurn.TurnBody.HandleRejection` | packages/acp-adapter/src/session.ts:1208-1213 | A failed start settles the prompt once |
| `AcpTurn.SettlesOnce` | packages/acp-adapter/src/session.ts:928-1213 | Over every input sequence the promise settles at most once, exactly when the listener is removed |
| `AcpTurn.SettlementIs` | packages/acp-adapter/src/session.ts:983-1213 | Over every run, in terms of the inputs: the first one that can settle the prompt does, and it is cancelled, refused, in need of authentication, busy, failed or ended exactly for a main-agent end for that reason, a busy error before the own turn has started, or a rejected start |
| `AcpTurn.SilentAfterSettling` | packages/acp-adapter/src/session.ts:984-992 | After settling, nothing that comes changes anything: no notification and no second settlement |
| `AcpTurn.ChildrenInvisible` | packages/acp-adapter/src/session.ts:929-930 | Deleting all events of child agents changes nothing at all |
| `AcpTurn.StartedIds` | packages/acp-adapter/src/session.ts:956-956 | The set of started ids is that of the ids introduced so far, each created exactly once |
| `AcpTurn.OneCreation` | packages/acp-adapter/src/session.ts:1052-1110 | No wire id gets two `tool_call` notifications |
| `AcpTurn.CreatedFirstIff` | packages/acp-adapter/src/session.ts:1035-1160 | Every `tool_call_update` comes after the `tool_call` of its id if and only if progress and results come after the first delta or start of their call |
| `AcpTurn.Accumulated` | packages/acp-adapter/src/session.ts:1042-1130 | In every run an accumulator holds what its last start, or last first delta of a wire id, set and all deltas under the raw id since |
| `AcpTurn.DeltaShowsOwnTextIff` | packages/acp-adapter/src/events-map.ts:197-217 | In every run a later delta shows that and its own part; it is the text of its own call if and only if the accumulator held the text of that call |
| `AcpTurn.DeltaShowsOwnText` | packages/acp-adapter/src/events-map.ts:197-217 | A later delta shows exactly the text of its own call so far when no other turn has used the raw id since that call's last start or first delta |
| `AcpTurn.OwnTextIffUnmixed` | packages/acp-adapter/src/session.ts:1042-1130 | Otherwise the same events with other texts, which run the same course, make the same delta show a wrong text: so a delta is right on the wire whatever the texts are if and only if nobody mixed in |
| `AcpTurn.OneTurnNeverMixes` | packages/acp-adapter/src/session.ts:1042-1130 | With the events of one turn that never happens |
| `AcpTurn.InterleavedTurnsMix` | packages/acp-adapter/src/session.ts:931-936 | For any two turns, raw id and texts: when the second turn streams under the id before the first goes on, the first shows the second's text, which is right only if the two are equal |
| `AcpTurn.CardAfterStart` | packages/acp-adapter/src/events-map.ts:152-192 | What a client shows of a call after its start is the same card whether deltas have created it before or not: description or name, kind, in progress, the arguments, and the diff before their text |
| `AcpTurn.CardAfterDelta` | packages/acp-adapter/src/events-map.ts:197-266 | A first delta makes a pending card, a later one a card in progress with the accumulated text |
| `AcpTurn.CardAfterOutcome` | packages/acp-adapter/src/events-map.ts:325-395 | A result leaves the card failed or completed with its output, a progress status changes its title, and neither makes a card |
| `AcpTurn.PlanAfterStart` | packages/acp-adapter/src/events-map.ts:411-467 | A start with a todo list sends a plan with its titles in order, each in progress, completed or pending as its status says |
| `AcpTurn.TextConserved` | packages/acp-adapter/src/session.ts:1005-1033 | Over every run the client is sent exactly the text, and exactly the thoughts, of the main agent up to the settlement, in order |
| `AcpTurn.KindsIff` | packages/acp-adapter/src/events-map.ts:100-120 | Which names have which kind, and that all others are other |
| `AcpTurn.DiffIff` | packages/acp-adapter/src/convert.ts:171-195 | A diff is shown exactly for a diff display and for a file display with both texts, from before to after |
| `AcpTurn.CurrentTurn` | packages/acp-adapter/src/session.ts:967-982 | While the prompt lasts the current turn is the one a main-agent event has named last |
| `LinkScoring.ScoreNotes` | packages/dsh-nori-memory/src/vault.ts:176-216 | The result lists, in note order, exactly the notes with a positive score, each with max(own seed score, seed score / 2^d over the seeds at shortest link distance d, 1 <= d <= linkDepth) |
| `LinkScoring.ScoreUnique` | packages/dsh-nori-memory/src/vault.ts:196-212 | That maximum is one number |
| `LinkScoring.ScoreMonotone` | packages/dsh-nori-memory/src/vault.ts:176-216 | It never falls when linkDepth grows |
| `LinkScoring.OfferTimesPower` | packages/dsh-nori-memory/src/vault.ts:209 | What a seed offers over d links, times 2^d, is its score |
| `LinkScoring.PathOfWithin` | packages/dsh-nori-memory/src/vault.ts:200-211 | A note within d links is at the end of a path of at most d links |
| `LinkScoring.WithinOfPath` | packages/dsh-nori-memory/src/vault.ts:200-211 | And the other way round |
| `LinkScoring.ResolveIff` | packages/dsh-nori-memory/src/vault.ts:177-178 | A link leads to the last note with its name, compared in lower case, and nowhere if there is none |
| `LinkScoring.SplitCounts` | packages/dsh-nori-memory/src/vault.ts:187 | The number of hits of a keyword is one less than the number of pieces of the split, where each cut is at the leftmost occurrence in what is left |
| `LinkScoring.SplitExists` | packages/dsh-nori-memory/src/vault.ts:187 | Every text has such a split |
| `LinkScoring.SeedScoreIsPoints` | packages/dsh-nori-memory/src/vault.ts:183-189 | A seed score is, over the non-empty keywords, three points for every cut of the title and one for every cut of the body |
| `LinkScoring.SpreadAll` | packages/dsh-nori-memory/src/vault.ts:196-212 | For any order of the seeds the spreads end in these scores |
| `LinkScoring.SpreadFrom` | packages/dsh-nori-memory/src/vault.ts:198-211 | A spread from one seed raises each note within reach by its shortest distance and leaves the others |
| `LinkScoring.FollowLinks` | packages/dsh-nori-memory/src/vault.ts:203-210 | Expanding one queued note keeps the queue sorted by shortest distance and its successors all visited |
| `LinkScoring.AllVisited` | packages/dsh-nori-memory/src/vault.ts:200-211 | Everything within k links has been visited when all nearer notes have been expanded |
| `LinkScoring.NewDistance` | packages/dsh-nori-memory/src/vault.ts:206-208 | A note first reached now has the depth it is queued with as its shortest distance |
| `LinkScoring.ScoreAfterSpread` | packages/dsh-nori-memory/src/vault.ts:209 | One more spread extends the maximum by one more seed, whichever seeds came before |
| `LinkScoring.ComputeSeeds` | packages/dsh-nori-memory/src/vault.ts:177-190 | The index resolves a link as the last note with that name in lower case; the seeds are the notes with a positive keyword score |
| `FrontMatter.BuildFrontmatter` | packages/dsh-nori-memory/src/vault.ts:235-247 | The pushed and joined lines are the specified text |
| `FrontMatter.ParseFrontmatter` | packages/dsh-nori-memory/src/vault.ts:109-140 | The loop over `listKey` and `out` computes the specified map, for any text |
| `FrontMatter.FindPrintedFence` | packages/dsh-nori-memory/src/vault.ts:112-113 | The closing fence found is the printed one, whatever the entries contain and whatever follows |
| `FrontMatter.SplitPrinted` | packages/dsh-nori-memory/src/vault.ts:116 | The printed lines are the lines the parser sees |
| `FrontMatter.ParsePrinted` | packages/dsh-nori-memory/src/vault.ts:109-140 | What parsing printed front matter gives for every title, one-line type and date, lists and body: JSON escapes stay, an empty title is an empty list, an entry with U+2028 or U+2029 is lost, type and date lose outer white space and quotes |
| `FrontMatter.FieldSurvivesIff` | packages/dsh-nori-memory/src/vault.ts:117-128 | A type or date comes back as printed if and only if it is not empty and has no line terminator, outer white space or outer quotes |
| `FrontMatter.ParsedOneLine` | packages/dsh-nori-memory/src/vault.ts:116-138 | No parsed value holds a line feed, whatever is parsed |
| `FrontMatter.EscapeIdentity` | packages/dsh-nori-memory/src/vault.ts:236 | JSON escaping leaves a string alone exactly when no character needs it |
| `FrontMatter.ReadEscaped` | packages/dsh-nori-memory/src/vault.ts:236 | A JSON reader (section 7 of RFC 8259) gets every string back from what is printed |
| `FrontMatter.Characters` | packages/dsh-nori-memory/src/vault.ts:117-131 | Blanks, line terminators, key characters and quotes by their code points |
| `FrontMatter.ParsedItemsIff` | packages/dsh-nori-memory/src/vault.ts:131-137 | A list survives exactly if each entry does |
| `FrontMatter.RoundTripsIff` | packages/dsh-nori-memory/src/vault.ts:235-247 | For all inputs, parsing gives back exactly what was printed if and only if the title is not empty, title, tags and links have nothing JSON escapes and no U+2028 or U+2029, and type and date are plain as above |
| `WrittenNotes.MatchKeyIff` | packages/dsh-nori-memory/src/vault.ts:117 | A line is a key line exactly if it is a key, a colon, blanks and a value on one line |
| `WrittenNotes.MatchItemIff` | packages/dsh-nori-memory/src/vault.ts:131 | A line is an item exactly if it is blanks, a dash, at least one blank and a text on one line |
| `WrittenNotes.EveryLine` | packages/dsh-nori-memory/src/vault.ts:116-138 | Every line is a key line or an item, with its text in quotes or bare and blanks around it, or neither; so the next statement is about every text |
| `WrittenNotes.LineStep` | packages/dsh-nori-memory/src/vault.ts:116-138 | What one line does: a key with a text sets it and closes the list, a key without opens one, an item under an open list is added, quoted or not, and anything else changes nothing |
| `WrittenNotes.ParseMeans` | packages/dsh-nori-memory/src/vault.ts:109-140 | For front matter whoever wrote it: the keys are those of the key lines, and each has what its last line says, its text or the items up to the next key, in order |
| `WrittenNotes.EveryNoteMeans` | packages/dsh-nori-memory/src/vault.ts:109-140 | That is the result for every text with a block, and no keys for every other |
| `WrittenNotes.FenceIff` | packages/dsh-nori-memory/src/vault.ts:112-113 | The block ends at the first line feed with three dashes behind it |
| `WrittenNotes.LinesIff` | packages/dsh-nori-memory/src/vault.ts:116 | Its lines are what its line feeds separate |
| `WrittenNotes.CarriageReturnLoses` | packages/dsh-nori-memory/src/vault.ts:117-131 | A line that ends in CR sets nothing but an empty list |
| `ShellQuoting.LexQuoted` | packages/kaos/src/ssh.ts:114-120 | A quoted argument is read as that very text, with no character left to expansion, within any word and before any text |
| `ShellQuoting.BuildExecCommand` | packages/kaos/src/ssh.ts:894-923 | The text is built, or the call throws exactly if a variable name is invalid |
| `ShellQuoting.LexWords` | packages/kaos/src/ssh.ts:899 | Quoted pieces joined by blanks are read as as many words |
| `ShellQuoting.TokensOfCommand` | packages/kaos/src/ssh.ts:894-923 | The shell (sections 2.2 and 2.3 of the POSIX.1-2017 Shell Command Language) reads exactly `cd`, the directory, `&&`, the assignments and the argument list, for all arguments |
| `ShellCharacters.NothingExpands` | packages/kaos/src/ssh.ts:894-923 | Every character of those words that sections 2.2, 2.6 and 2.13 of the same standard give a meaning, patterns and tildes included, is quoted |
| `ShellCharacters.SafeCharacters` | packages/kaos/src/ssh.ts:117 | Which characters are left unquoted, one by one |
| `ShellCharacters.NameCharacters` | packages/kaos/src/ssh.ts:906 | Which variable names are accepted |
| `ShellQuoting.AssignmentWordRead` | packages/kaos/src/ssh.ts:911 | Every printed assignment is read as an assignment of that name and value |
| `ShellQuoting.ArgumentRead` | packages/kaos/src/ssh.ts:117 | Exactly these unquoted arguments can be taken for something else: name=value, which is an assignment; any other `=` that is not the first character, which may be one; the reserved words; and the words a shell may reserve (`function`, `select`, name and colon) |
| `ShellQuoting.WordsUnderstoodIff` | packages/kaos/src/ssh.ts:899-915 | So the words of a command are read as that command with those variables if and only if the first argument has no such `=` and, without variables, is none of those words |
| `ShellQuoting.CommandUnderstoodIff` | packages/kaos/src/ssh.ts:894-923 | The built text, read from its characters, is the change of directory, if any, and that command if and only if the first argument is as above or, with no arguments, a variable or no directory is given (a `&&` with nothing after it is a syntax error) |

## Left out

- Real I/O, child processes, SSH and SFTP, HTTP, timers: opening, closing and failing files and directories changing under a walk are not modelled.
- `TextDecoder` in strict and replace mode, SHA-256 and its hexadecimal digest, and `globPatternToRegex`: foreign semantics, left as parameters or as the bytes fed.
- `readLines` in encodings other than UTF-8: it splits a text decoded as a whole, which is the generator already modelled.
- Directories with inode 0: `cycleKey` gives them no key, so cycles through them are not cut and the walk need not end; every directory has a key here.
- Path joining in the walk: a path is the list of names below the base, so `.`, `..` and doubled separators within names are not normalised.
- Aliasing of streamed parts: `mergeInPlace` mutates an object that the provider also holds; parts are values here, and only the message is updated in place.
- Abort signals, decode timing and callbacks in `generate`, and the other fields of its result.
- The refresh path with locking disabled, stale-lock takeover, a failing save, logins, and logouts while a process is using the token (these only as the counterexample).
- RefreshProtocol.TombstoneIsFinal: says nothing about runs with a login, which replaces the tombstone.
- Promises of `RefreshCoalescing` resolve with the run that served them, not with its value or error.
- Arguments and results of tool calls as JSON: `stringifyArgs` and the result conversion act outside the model, which has their text.
- Rejected `sessionUpdate` calls, which are logged and change nothing, telemetry and logs.
- Prompt ownership of `turn.ended` between concurrent prompts, and the approvals themselves.
- FrontMatter.ParsePrinted: is about a type and a date on one line; one with line feeds puts further lines into the block, which are read as `WrittenNotes.EveryNoteMeans` says.
- A front-matter key `__proto__`, which JavaScript treats specially, and lone surrogates, which JSON escapes.
- LinkScoring.ScoreNotes: halving is exact on reals, while the source's doubles underflow after some thousand links.
- Shell syntax that the built text cannot contain unquoted: the reader gives up on operators other than `&&`, expansions, comments and line breaks instead of reading them; aliases, and what `cd` makes of a directory such as `-`, are not modelled, and arguments have no NUL (none is treated specially).
- What the shell then does with the command it has read: finding it (section 2.9.1 of the same standard, with the names of utilities it leaves unspecified), and running it.
- `_globWalk` in `ssh.ts`, which has no cycle detection, and the remaining helpers of the vault, which are one expression each.
