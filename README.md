# vibeLaunch core, modelled in Dafny

vibeLaunch is a React guide to deploying an app, with a few demos of a hosted AI SDK. Once the
browser and the SDK are taken out, its logic fits in five places, and this project models and
verifies each of them:

- **Live voice** (`components/demos/LiveVoice.tsx`) streams voice audio in and out:
  - A playback scheduler keeps a cursor (`nextStartTimeRef`) and a set of active sources
    (`sourcesRef`). Every inbound audio chunk is scheduled at `max(cursor, currentTime)` and
    advances the cursor by its duration. An `ended` event removes its source. An interrupt stops
    every source, clears the set and sets the cursor to 0.
  - A PCM codec: `createBlob` packs int16 samples little-endian, `encode`/`decode` go through a
    Latin-1 binary string and `btoa`/`atob` (base64, RFC 4648 section 4), and `decodeAudioData`
    views bytes as int16 and deinterleaves them by channel.
  - The connection bookkeeping: `connect`, the `onopen`/`onclose`/`onerror` callbacks and
    `disconnect`, which tears down up to three handles.
- **Guide** (`App.tsx`) holds an active section and a set of completed sections. There are
  complete-and-advance, previous and select transitions, and a rounded progress percentage.
- **Deployment helper chat** (`components/GeminiHelper.tsx`) has an append-only history that starts
  with a greeting. Each send appends the user's message and builds the request contents from the
  history. Each reply appends one model message.
- **Search demo** (`components/demos/SearchChat.tsx`) shows the answer text or a fallback, and lists
  the grounding chunks that carry a web address as links.
- **Image studio** (`components/demos/ImageStudio.tsx`) covers:
  - the key guard and the request configuration for generation;
  - the upload guard, the data-URL payload split and the prompt fallback for editing;
  - the selection of the first image part of a response.

How the model is organised:

- Where the source changes state step by step, the model is a class whose methods are proved
  against pure functions. `LiveVoice.LiveVoiceComponent` is proved against the `Player` functions.
  `Guide.GuideApp` is proved against the `GuideState` transitions.
- The codec loops are methods over arrays.
- Each handler with one `await` on the SDK is split in two methods. The first runs up to the call
  and returns the request it would send. The second runs after the call and takes its outcome,
  which is either a response or a failure.
- Clock readings (`currentTime`, `Date.now()`) and the host's answers (`window.aistudio`) are
  parameters of the methods.

Modules:

| file | module | models |
|---|---|---|
| wrappers.dfy | Wrappers | `Option` |
| typed_arrays.dfy | TypedArrays | ECMAScript ToInt16/ToUint8 (ECMA-262 sections 7.1.8 and 7.1.11), little-endian int16 packing and viewing, deinterleaving |
| base64.dfy | Base64 | RFC 4648 section 4 encoding and decoding; `btoa`/`atob` over Latin-1 strings |
| js_string.dfy | JsString | `trim` emptiness, `split` on one character |
| live_voice_codec.dfy | LiveVoiceCodec | `createBlob`, `encode`, `decode`, `decodeAudioData` |
| live_voice.dfy | LiveVoice | the playback scheduler, message handling and connection bookkeeping |
| guide.dfy | Guide | the guide's progress state machine |
| gemini_helper.dfy | GeminiHelper | the chat helper |
| search_chat.dfy | SearchChat | the search demo |
| image_studio.dfy | ImageStudio | the image studio |

## Model

| member | source | states |
|---|---|---|
| TypedArrays.ToInt16 | components/demos/LiveVoice.tsx:150-153 | A store into an `Int16Array` keeps the value modulo 2^16 in -32768..32767, and leaves in-range values unchanged |
| TypedArrays.ToUint8 | components/demos/LiveVoice.tsx:172-175 | A store into a `Uint8Array` keeps the value modulo 2^8 in 0..255, and leaves in-range values unchanged |
| TypedArrays.SampleBytes | components/demos/LiveVoice.tsx:154 | A sample is stored as two bytes, low byte first: `b0 + 256 * b1` is the sample modulo 2^16 |
| TypedArrays.SampleOf | components/demos/LiveVoice.tsx:185 | Two bytes, low byte first, read as the signed 16-bit value of `lo + 256 * hi` |
| TypedArrays.SampleBytesRoundTrip | components/demos/LiveVoice.tsx:154 | The two little-endian bytes of a sample reassemble to that sample |
| TypedArrays.SampleOfRoundTrip | components/demos/LiveVoice.tsx:185 | Splitting the sample read from two bytes gives back those two bytes |
| TypedArrays.PackLE | components/demos/LiveVoice.tsx:154 | `new Uint8Array(int16.buffer)` has twice as many bytes as samples, and bytes 2k and 2k+1 read back as sample k |
| TypedArrays.ViewInt16LE | components/demos/LiveVoice.tsx:185 | `new Int16Array(data.buffer)` succeeds exactly when the byte count is even; it has half as many samples, sample k read from bytes 2k, 2k+1 |
| TypedArrays.ViewPackRoundTrip | components/demos/LiveVoice.tsx:154-185 | Viewing packed samples gives the same samples back |
| TypedArrays.PackViewRoundTrip | components/demos/LiveVoice.tsx:154-185 | Packing the view of an even-length byte sequence gives the same bytes back |
| TypedArrays.Deinterleave | components/demos/LiveVoice.tsx:186-194 | A channel of n-channel data has `len / n` frames |
| TypedArrays.DeinterleaveIndexInBounds | components/demos/LiveVoice.tsx:192 | The index `i * n + c` read for frame i < len/n of channel c < n is in bounds |
| TypedArrays.DeinterleaveAt | components/demos/LiveVoice.tsx:192 | Frame i of channel c is sample `i * n + c` |
| TypedArrays.DeinterleaveMono | components/demos/LiveVoice.tsx:189-194 | With one channel, deinterleaving is the identity |
| TypedArrays.ViewTail | components/demos/LiveVoice.tsx:185 | Dropping the first two bytes drops the first sample of the view |
| Base64.EncodeSextet | components/demos/LiveVoice.tsx:166 | A 6-bit value encodes to an alphabet character, never the pad `=` |
| Base64.DecodeChar | components/demos/LiveVoice.tsx:170 | Decoding a character inverts the alphabet; the pad decodes to no value |
| Base64.DecodeEncodeSextet | components/demos/LiveVoice.tsx:166-170 | Every 6-bit value survives encode then decode |
| Base64.EncodeQuantum | components/demos/LiveVoice.tsx:166 | Three bytes encode to four unpadded characters |
| Base64.Encode | components/demos/LiveVoice.tsx:166 | The encoding of n bytes has `4 * ceil(n / 3)` characters |
| Base64.EncodeLength | components/demos/LiveVoice.tsx:166 | Every encoding has a length that is a multiple of 4 |
| Base64.EncodeAlphabet | components/demos/LiveVoice.tsx:166 | Every encoded character is in the alphabet or is the pad |
| Base64.EncodeSplit | components/demos/LiveVoice.tsx:166 | Encoding works three bytes at a time from the front |
| Base64.DecodeQuantum | components/demos/LiveVoice.tsx:170 | A quantum decodes only when its characters are alphabet or pad, with padding only in the final quantum, as `xx==` or `xxx=`. It then yields 3 bytes minus one per pad |
| Base64.Decode | components/demos/LiveVoice.tsx:170 | Decoding succeeds only when the length is a multiple of 4, every character is alphabet or pad, and pads sit only in the last two positions. The result has 3 bytes per quantum, minus one per closing pad |
| Base64.QuantumRoundTrip | components/demos/LiveVoice.tsx:166-170 | A full quantum decodes back to its three bytes, whether or not it is last |
| Base64.FinalOneRoundTrip | components/demos/LiveVoice.tsx:166-170 | A final quantum with two pads decodes back to its one byte |
| Base64.FinalTwoRoundTrip | components/demos/LiveVoice.tsx:166-170 | A final quantum with one pad decodes back to its two bytes |
| Base64.DecodeEncodeShort | components/demos/LiveVoice.tsx:166-170 | Up to three bytes survive encode then decode |
| Base64.DecodeEncodeStep | components/demos/LiveVoice.tsx:166-170 | If the rest after three bytes round-trips, so does the whole |
| Base64.DecodeEncode | components/demos/LiveVoice.tsx:166-170 | Every byte sequence survives encode then decode |
| Base64.Latin1 | components/demos/LiveVoice.tsx:162-165 | The binary string has one character per byte, its code being the byte |
| Base64.Codes | components/demos/LiveVoice.tsx:171-175 | `charCodeAt` of every character gives one byte per character |
| Base64.CodesLatin1 | components/demos/LiveVoice.tsx:162-175 | Reading the codes of the binary string gives the bytes back |
| Base64.Btoa | components/demos/LiveVoice.tsx:166 | `btoa` succeeds exactly when every code is below 256 |
| Base64.Atob | components/demos/LiveVoice.tsx:170 | `atob` succeeds exactly when the input decodes; its result has codes below 256 |
| Base64.AtobBtoa | components/demos/LiveVoice.tsx:160-177 | `btoa` of a binary string is the RFC 4648 encoding of its bytes, and `atob` of that gives the binary string back |
| JsString.TrimStart | components/GeminiHelper.tsx:24 | The result is a suffix starting with a non-space; only white space was dropped |
| JsString.TrimEnd | components/GeminiHelper.tsx:24 | The result is a prefix ending with a non-space; only white space was dropped |
| JsString.TrimEmptyIffBlank | components/GeminiHelper.tsx:24 | `!input.trim()` holds exactly when every character is white space, so the guard tests blankness |
| JsString.Split | components/demos/ImageStudio.tsx:79 | `split` gives at least one field, and no field contains the separator |
| JsString.JoinSplit | components/demos/ImageStudio.tsx:79 | Joining the fields with the separator gives the string back |
| JsString.SplitNoSeparator | components/demos/ImageStudio.tsx:79 | A string without the separator splits into itself alone |
| JsString.SplitPrefix | components/demos/ImageStudio.tsx:79 | A separator-free head before the first separator is the first field |
| JsString.SecondField | components/demos/ImageStudio.tsx:79 | `split(',')[1]` is undefined exactly when there is no comma |
| LiveVoiceCodec.Encode | components/demos/LiveVoice.tsx:160-167 | The loop building the binary string, then `btoa`, gives the base64 encoding of the array's bytes |
| LiveVoiceCodec.Decode | components/demos/LiveVoice.tsx:169-177 | `decode` fails exactly when the text does not decode; otherwise a fresh array holds the decoded bytes |
| LiveVoiceCodec.StoreInt16 | components/demos/LiveVoice.tsx:150-153 | Filling the `Int16Array` stores each value through ToInt16 |
| LiveVoiceCodec.CreateBlob | components/demos/LiveVoice.tsx:148-158 | The blob's data is the base64 of the little-endian packing of the stored samples; the MIME type is `audio/pcm;rate=16000` |
| LiveVoiceCodec.AudioFrames | components/demos/LiveVoice.tsx:185-187 | Decoding throws exactly for an odd byte count, a channel count outside 1..32, no frames or a rate outside 3000..768000; otherwise the frame count is `len / 2 / n` |
| LiveVoiceCodec.DecodeAudioData | components/demos/LiveVoice.tsx:179-196 | The buffer exists exactly when the frame count does; it has that many frames per channel, and channel c frame i holds sample `i * n + c` |
| LiveVoiceCodec.CopyChannel | components/demos/LiveVoice.tsx:190-193 | The inner loop fills one channel with its deinterleaved samples and leaves the others alone |
| LiveVoiceCodec.BufferDuration | components/demos/LiveVoice.tsx:96-110 | A decoded 24 kHz mono buffer has a positive duration |
| LiveVoiceCodec.ChunkDuration | components/demos/LiveVoice.tsx:94-101 | An audio chunk that decodes has a positive duration |
| LiveVoiceCodec.CaptureRoundTrip | components/demos/LiveVoice.tsx:148-185 | A captured blob decodes back to the stored samples, and those are the inputs when they are in int16 range |
| LiveVoiceCodec.ChunkDurationOfBytes | components/demos/LiveVoice.tsx:94-177 | A chunk's duration is the duration of the bytes it encodes |
| LiveVoiceCodec.MonoDuration | components/demos/LiveVoice.tsx:96-110 | 2n bytes of 24 kHz mono last n/24000 seconds |
| LiveVoiceCodec.EvenChunkDuration | components/demos/LiveVoice.tsx:94-110 | A chunk encoding 2n bytes lasts n/24000 seconds |
| LiveVoiceCodec.OddBytesFail | components/demos/LiveVoice.tsx:185 | A chunk with an odd number of bytes fails to decode |
| LiveVoice.AudioPayload | components/demos/LiveVoice.tsx:87-89 | There is a payload exactly when the first part's inline data is a non-empty string, and the payload is that string |
| LiveVoice.Max | components/demos/LiveVoice.tsx:92 | `Math.max` is at least both arguments and is one of them |
| LiveVoice.InitialPlayer | components/demos/LiveVoice.tsx:14-15 | The cursor starts at 0 with no sources, and that state is valid |
| LiveVoice.Enqueue | components/demos/LiveVoice.tsx:92-111 | A scheduled chunk is appended to the active set. It starts at `max(cursor, now)`, so never before the clock or the previous end. The cursor becomes its end, and a start is recorded |
| LiveVoice.ReceiveAudio | components/demos/LiveVoice.tsx:90-114 | A chunk that fails to decode only moves the cursor to `max(cursor, now)`; one that decodes is scheduled |
| LiveVoice.StopAll | components/demos/LiveVoice.tsx:118 | Every active source is stopped, in order |
| LiveVoice.Interrupt | components/demos/LiveVoice.tsx:117-121 | An interrupt stops every active source, empties the set and sets the cursor to 0 |
| LiveVoice.Interrupted | components/demos/LiveVoice.tsx:117 | A message interrupts exactly when `serverContent.interrupted` is true; one without `serverContent` never does |
| LiveVoice.HandleMessage | components/demos/LiveVoice.tsx:86-121 | A message never lowers the next id and only appends to the log. An interrupt leaves no active source and the cursor at 0. Without one, the active set keeps its sources and gains at most one. A message with neither audio nor interrupt changes nothing |
| LiveVoice.Remove | components/demos/LiveVoice.tsx:105-107 | `delete` keeps exactly the sources other than the ended one |
| LiveVoice.HandleEnded | components/demos/LiveVoice.tsx:105-107 | An `ended` event changes only the active set |
| LiveVoice.Step | components/demos/LiveVoice.tsx:86-121 | Any event keeps the next id and the log growing. An `ended` event leaves the log and cursor alone and never grows the set |
| LiveVoice.Run | components/demos/LiveVoice.tsx:86-121 | Over any run of events, the next id never decreases and the log is only appended to |
| LiveVoice.BackToBack | components/demos/LiveVoice.tsx:92-110 | While the cursor is ahead of the clock, the next chunk starts exactly where the previous one ends |
| LiveVoice.InterruptThenChunk | components/demos/LiveVoice.tsx:92-121 | After an interrupt, the next chunk starts exactly at the device clock and is the only active source |
| LiveVoice.AudioThenInterrupt | components/demos/LiveVoice.tsx:89-121 | A message with audio and `interrupted` schedules the chunk, then stops it with the others and empties the set |
| LiveVoice.DecodeFailureOnlyAdvancesCursor | components/demos/LiveVoice.tsx:92-185 | An odd-length chunk leaves the active set and the log alone; only the `max` update happens |
| LiveVoice.ThreeChunksThenInterrupt | components/demos/LiveVoice.tsx:86-121 | Chunks of 0.5, 0.3 and 0.2 s from time 0 start at 0, 0.5 and 0.8; an interrupt stops all three |
| LiveVoice.RemoveAbsent | components/demos/LiveVoice.tsx:105-107 | Deleting a source that is not in the set changes nothing |
| LiveVoice.RemoveExactlyOne | components/demos/LiveVoice.tsx:105-107 | Deleting a source removes it and nothing else |
| LiveVoice.RemoveOrdered | components/demos/LiveVoice.tsx:105-107 | Deleting keeps the schedule order |
| LiveVoice.OrderedDistinct | components/demos/LiveVoice.tsx:109-111 | Sources scheduled in order are distinct |
| LiveVoice.OnEndedExactlyOne | components/demos/LiveVoice.tsx:105-111 | In a valid state, the `ended` event of a scheduled source removes exactly that source |
| LiveVoice.EnqueueValid | components/demos/LiveVoice.tsx:92-111 | Scheduling keeps the invariant: sources in start order, none overlapping, all ending by the cursor |
| LiveVoice.OnMessageValid | components/demos/LiveVoice.tsx:86-121 | Handling a message keeps the invariant |
| LiveVoice.OnEndedValid | components/demos/LiveVoice.tsx:105-107 | An `ended` event keeps the invariant |
| LiveVoice.RunValid | components/demos/LiveVoice.tsx:86-121 | Over any run of messages and `ended` events, the invariant holds, ids only grow and the effect log only grows |
| LiveVoice.TeardownOf | components/demos/LiveVoice.tsx:24-36 | `disconnect` makes one call per set handle and none when all are null. The session is closed first and the context last |
| LiveVoice.TeardownOfMembers | components/demos/LiveVoice.tsx:24-36 | A handle is torn down exactly when it is set, and with the call that suits it |
| LiveVoice.DecodeChunk | components/demos/LiveVoice.tsx:94-99 | Decoding a chunk with `decode` and `decodeAudioData(…, 24000, 1)` gives the chunk's duration, or fails when the chunk does |
| LiveVoice.LiveVoiceComponent.constructor | components/demos/LiveVoice.tsx:6-15 | Mounting: disconnected, no error, no handles, cursor 0 and no sources |
| LiveVoice.LiveVoiceComponent.OnMessage | components/demos/LiveVoice.tsx:86-122 | `onmessage` makes the playback state the handled message's state, keeps the invariant and touches nothing else |
| LiveVoice.LiveVoiceComponent.ReceiveChunk | components/demos/LiveVoice.tsx:89-115 | The audio branch of `onmessage` makes the playback state the received chunk's state |
| LiveVoice.LiveVoiceComponent.StopAllSources | components/demos/LiveVoice.tsx:117-121 | The interrupt branch stops every source, clears the set and sets the cursor to 0 |
| LiveVoice.LiveVoiceComponent.OnEnded | components/demos/LiveVoice.tsx:105-107 | The `ended` listener removes its source and keeps the invariant |
| LiveVoice.LiveVoiceComponent.Disconnect | components/demos/LiveVoice.tsx:24-39 | `disconnect` nulls the three handles after tearing down those set, and sets disconnected. The cursor and sources stay untouched |
| LiveVoice.DisconnectIdempotent | components/demos/LiveVoice.tsx:24-39 | Once the handles are null, a second `disconnect` tears down nothing |
| LiveVoice.DisconnectTwice | components/demos/LiveVoice.tsx:24-39 | Two `disconnect`s in a row leave the same handles, status and teardown calls as one |
| LiveVoice.LiveVoiceComponent.BeginConnect | components/demos/LiveVoice.tsx:41-50 | `connect` clears the error and sets the initializing status. It keeps the new output context before asking for the microphone |
| LiveVoice.LiveVoiceComponent.MediaReady | components/demos/LiveVoice.tsx:52-55 | The granted microphone stream is kept, and the status says connecting |
| LiveVoice.LiveVoiceComponent.SessionResolved | components/demos/LiveVoice.tsx:136-138 | The resolved session is kept |
| LiveVoice.LiveVoiceComponent.OnOpen | components/demos/LiveVoice.tsx:67-69 | `onopen` sets connected and the speak-now status |
| LiveVoice.LiveVoiceComponent.OnClose | components/demos/LiveVoice.tsx:123-126 | `onclose` sets disconnected without tearing anything down |
| LiveVoice.LiveVoiceComponent.OnError | components/demos/LiveVoice.tsx:127-131 | `onerror` sets the connection error and disconnects |
| LiveVoice.LiveVoiceComponent.ConnectFailed | components/demos/LiveVoice.tsx:140-144 | A failed `connect` sets its error and disconnects |
| LiveVoice.RefusedMicrophone | components/demos/LiveVoice.tsx:41-144 | A refused microphone sets the failure text and leaves the component disconnected. The output context created before the request is closed, and it is the only teardown call |
| Guide.GuideSectionIdsValid | data.tsx:34-236 | The seven guide section ids are distinct and non-empty |
| Guide.FindIndex | App.tsx:30 | `findIndex` gives the first position of the id, or -1 exactly when it is absent |
| Guide.ActiveSection | App.tsx:29 | The shown section is the active id when known, else the first section |
| Guide.NextSection | App.tsx:31 | The next section follows the active one, does not exist after the last, and is the first for an unknown id |
| Guide.Progress | App.tsx:42 | `Math.round(100 * completed / total)`: the integer nearest the ratio, a half rounding up |
| Guide.Init | App.tsx:19-22 | The first section is active, nothing is completed, the guide view is shown and the sidebar closed. For usable sections the state is valid |
| Guide.Complete | App.tsx:33-40 | Completing adds the id to the set and touches neither the view nor the sidebar. It moves to the section after the active one, stays at the last, and goes to the first from an unknown id |
| Guide.CompleteActive | App.tsx:235 | The footer button adds the displayed section to the completed set and nothing else |
| Guide.Previous | App.tsx:224-228 | Previous activates the section one position back; at the first or an unknown id it changes nothing |
| Guide.Select | App.tsx:100-103 | A sidebar entry becomes active, the sidebar closes, and the completed set and view stay |
| Guide.ShowView | App.tsx:73-130 | The chosen view is shown and the sidebar closes; the section and completed set stay |
| Guide.ToggleSidebar | App.tsx:52 | The menu button flips the sidebar flag and changes nothing else |
| Guide.ProgressOf | App.tsx:42 | The shown progress is the completed count over the section count, rounded to the nearest percent; 0 with nothing completed |
| Guide.InitValid | App.tsx:19-22 | Initially the first section is active, none completed, the guide view shown and progress 0 |
| Guide.TransitionsPreserveValid | App.tsx:33-228 | Every handler keeps the active id a section and the completed set within the sections |
| Guide.CompleteAddsOnly | App.tsx:33-36 | Completing adds the id and removes nothing; completing again changes nothing |
| Guide.CompleteAdvances | App.tsx:30-39 | Completing a non-last section activates the next one; at the last one the active section stays |
| Guide.PreviousSteps | App.tsx:224-228 | Previous moves one section back, and does nothing at the first |
| Guide.SelectKeepsCompleted | App.tsx:100-103 | A sidebar click makes that section active and keeps the completed set |
| Guide.UnknownActiveFallsBack | App.tsx:29-40 | An unknown active id shows the first section, and completing then completes the first |
| Guide.ProgressBounds | App.tsx:42 | Progress is within 0..100; 0 with nothing completed, 100 with everything |
| Guide.ProgressFullOnlyWhenAllComplete | App.tsx:42 | With fewer than 200 sections, progress is 100 exactly when all are completed |
| Guide.DistinctCard | App.tsx:42 | Distinct section ids count as many as the sections |
| Guide.ProgressFullIffAllCompleted | App.tsx:42 | In a valid state, progress is within 0..100, and 100 exactly when every section is completed |
| Guide.WalkThrough | App.tsx:30-40 | Pressing complete k times from the start activates section k with the first k completed |
| Guide.WalkStep | App.tsx:30-40 | One more completion advances the walk by one section |
| Guide.FindIndexAt | App.tsx:30 | A section's index is its position |
| Guide.GuideApp.constructor | App.tsx:19-22 | The component starts in the initial guide state |
| Guide.GuideApp.ProgressPercentage | App.tsx:42 | The shown percentage is the rounded progress, within 0..100 |
| Guide.GuideApp.HandleComplete | App.tsx:33-40 | `handleComplete` applies the complete transition and keeps the state valid |
| Guide.GuideApp.ClickComplete | App.tsx:235 | The complete button completes the active section |
| Guide.GuideApp.ClickPrevious | App.tsx:224-228 | The previous button applies the previous transition |
| Guide.GuideApp.ClickSection | App.tsx:100-103 | A sidebar click makes the section active and closes the sidebar |
| Guide.GuideApp.ClickView | App.tsx:73-130 | The view buttons switch between guide and playground and close the sidebar |
| Guide.GuideApp.ClickMenu | App.tsx:52 | The menu button toggles the sidebar |
| GeminiHelper.ToContent | components/GeminiHelper.tsx:43-46 | A message becomes a turn of its role carrying its text |
| GeminiHelper.RequestContents | components/GeminiHelper.tsx:43-49 | The contents are the history in order, then the user turn: `|history| + 1` entries, the last one a user turn |
| GeminiHelper.RequestCarriesConversation | components/GeminiHelper.tsx:43-49 | The request texts are the history texts followed by the new text |
| GeminiHelper.ReplyText | components/GeminiHelper.tsx:57-62 | The appended text is the reply when non-empty, the fallback when it is empty, the glitch text on failure |
| GeminiHelper.CanSend | components/GeminiHelper.tsx:24 | A send goes ahead exactly when the trimmed input is non-empty and a key is set |
| GeminiHelper.ChatHelper.constructor | components/GeminiHelper.tsx:8-14 | The history starts with exactly the greeting, from the model |
| GeminiHelper.ChatHelper.SetOpen | components/GeminiHelper.tsx:71-88 | The launcher and close buttons set the open flag and nothing else |
| GeminiHelper.ChatHelper.SetInput | components/GeminiHelper.tsx:124 | Typing sets the input and nothing else |
| GeminiHelper.ChatHelper.BeginSend | components/GeminiHelper.tsx:23-53 | A blank input or a missing key changes nothing; otherwise the user message is appended, the input cleared, loading set, and the request built from the earlier history |
| GeminiHelper.ChatHelper.FinishSend | components/GeminiHelper.tsx:55-65 | Exactly one model message is appended, and loading ends |
| GeminiHelper.History | components/GeminiHelper.tsx:27-62 | One event keeps the history as a prefix and adds at most one message. An outcome adds its model message, and a send adds one exactly when it is accepted |
| GeminiHelper.Replay | components/GeminiHelper.tsx:27-62 | Over a run of events the history grows by at most one message per event |
| GeminiHelper.Appends | components/GeminiHelper.tsx:27-62 | At most one message is added per event |
| GeminiHelper.HistoryAppendOnly | components/GeminiHelper.tsx:27-62 | Over any events the history keeps its earlier messages as a prefix, growing by one per accepted send or outcome |
| GeminiHelper.GreetingStaysFirst | components/GeminiHelper.tsx:9-62 | The greeting stays the first message forever |
| SearchChat.ToLink | components/demos/SearchChat.tsx:35 | A chunk with an address becomes `{ title, uri }` |
| SearchChat.HasUri | components/demos/SearchChat.tsx:35 | A chunk counts exactly when it has a web entry whose `uri` is a non-empty string |
| SearchChat.ExtractLinks | components/demos/SearchChat.tsx:33-35 | There are no more links than chunks, and every link has an address |
| SearchChat.ExtractLinksAppend | components/demos/SearchChat.tsx:33-35 | Extraction keeps the chunks' order |
| SearchChat.ExtractLinksMembers | components/demos/SearchChat.tsx:33-35 | A link is listed exactly when some chunk with an address maps to it |
| SearchChat.ExtractLinksAll | components/demos/SearchChat.tsx:33-35 | Chunks that all have addresses become links one to one, in place |
| SearchChat.ExtractLinksNone | components/demos/SearchChat.tsx:33-35 | Chunks without addresses give no links |
| SearchChat.GroundingChunks | components/demos/SearchChat.tsx:31 | There are chunks exactly when the first candidate has grounding metadata, and they are its `groundingChunks` |
| SearchChat.AnswerText | components/demos/SearchChat.tsx:28 | The answer is the text when non-empty, else "No text response generated." |
| SearchChat.SearchPanel.constructor | components/demos/SearchChat.tsx:6-9 | No input, no answer, no links, not loading |
| SearchChat.SearchPanel.SetInput | components/demos/SearchChat.tsx:58 | Typing sets the input and nothing else |
| SearchChat.SearchPanel.BeginSearch | components/demos/SearchChat.tsx:11-26 | A blank input does nothing; otherwise loading is set, answer and links cleared, and the question sent |
| SearchChat.SearchPanel.FinishSearch | components/demos/SearchChat.tsx:27-44 | The answer or the error text is shown, the links are extracted when there are chunks, and loading ends in every case |
| ImageStudio.ResponseParts | components/demos/ImageStudio.tsx:54-96 | There are parts exactly when the first candidate has content with parts, and they are those parts |
| ImageStudio.FirstInline | components/demos/ImageStudio.tsx:54-59 | The chosen part is the first one with inline data; none when no part has it |
| ImageStudio.ImageUrl | components/demos/ImageStudio.tsx:56-98 | The result is `data:image/png;base64,` followed by the data |
| ImageStudio.ResultOf | components/demos/ImageStudio.tsx:54-101 | There is a result exactly when some part has inline data |
| ImageStudio.LaterPartsIgnored | components/demos/ImageStudio.tsx:57-99 | Parts after the first image part make no difference |
| ImageStudio.FirstInlineImage | components/demos/ImageStudio.tsx:54-101 | The `for … break` scan finds the first image part's result |
| ImageStudio.NoImageKeepsCleared | components/demos/ImageStudio.tsx:36-101 | With no image part the result stays null |
| ImageStudio.UploadPayload | components/demos/ImageStudio.tsx:79 | The payload is the second comma-separated field, missing exactly when there is no comma |
| ImageStudio.DataUrlPayload | components/demos/ImageStudio.tsx:79 | For `header,payload` the payload is sent |
| ImageStudio.EditPrompt | components/demos/ImageStudio.tsx:91 | An empty prompt becomes "Enhance this image" |
| ImageStudio.Studio.constructor | components/demos/ImageStudio.tsx:6-12 | Generate mode, empty prompt, size 1K, no result, no upload, no key |
| ImageStudio.Studio.SelectMode | components/demos/ImageStudio.tsx:15-131 | The mode buttons set the mode; choosing generate records a selected key when the host reports one |
| ImageStudio.Studio.SetPrompt | components/demos/ImageStudio.tsx:177 | Typing sets the prompt and nothing else |
| ImageStudio.Studio.SetImageSize | components/demos/ImageStudio.tsx:186-193 | The size select keeps the size one of 1K, 2K, 4K |
| ImageStudio.Studio.SetUpload | components/demos/ImageStudio.tsx:110-119 | The read data URL becomes the upload |
| ImageStudio.Studio.BeginGenerate | components/demos/ImageStudio.tsx:28-52 | Without a key when the host has none, nothing is requested. Otherwise the key is recorded, loading set, the result cleared, and the request asks for the size and aspect ratio "1:1" |
| ImageStudio.Studio.BeginEdit | components/demos/ImageStudio.tsx:68-94 | With no upload it alerts and changes nothing else. Otherwise loading is set, the result cleared, and the request sends the payload with the prompt or its fallback |
| ImageStudio.Studio.Finish | components/demos/ImageStudio.tsx:54-107 | After a call, a response shows its first image part when it has one; a failure keeps the result and alerts; loading ends in every case |
| ImageStudio.Studio.FinishGenerate | components/demos/ImageStudio.tsx:54-65 | The result is the first image part; a failure alerts; loading ends in every case |
| ImageStudio.Studio.FinishEdit | components/demos/ImageStudio.tsx:96-107 | The result is the first image part; a failure alerts; loading ends in every case |

## Left out

- Float scaling (`data[i] * 32768` in `createBlob`, `/ 32768.0` in `decodeAudioData`) is floating point. Samples are modelled from the int16 level up: `createBlob` takes the already scaled values, and channel data holds the int16 samples.
- Web Audio and media devices are not modelled: `AudioContext`, `createBufferSource`, `source.start`/`stop`, `getUserMedia` and `ScriptProcessor`. The device clock `currentTime` and chunk durations are inputs. Starts and stops are recorded as events in a log. Handles are opaque values.
- The capture pipeline set up in `onopen` is not modelled: the `onaudioprocess` callback and `sessionPromise.then(session => session.sendRealtimeInput(...))`. `createBlob`, which it uses, is modelled. The race with the session promise is asynchrony in a foreign library.
- The SDK calls (`ai.live.connect`, `generateContent`) are foreign. Each outcome is an input: a response or a failure. The system instructions, the voice configuration and the API key are not modelled.
- Callbacks are modelled as atomic steps. In `onmessage`, the model does not interleave other events between the `max` update and the scheduling that follows the `await`.
- Base64.Atob: the forgiving-base64 behaviour of `atob` is not modelled, namely stripping ASCII white space and accepting unpadded input. Only padded input without white space decodes, and that is all `encode` produces. Like `atob`, the model ignores non-zero bits below the last whole byte.
- Byte order: `new Uint8Array(int16.buffer)` and `new Int16Array(buffer)` use the host's byte order. The model assumes a little-endian host, as every mainstream browser platform is.
- LiveVoiceCodec.AudioFrames: the frame count uses integer division. The source's `dataInt16.length / numChannels` is a float division, and a non-integral count is truncated by `createBuffer`. The two agree at the only call, where `numChannels` is 1.
- Guide.Progress: `Math.round` is computed in exact rational arithmetic, not floating point. Guide.ProgressFullOnlyWhenAllComplete: the "100 only when all completed" direction needs fewer than 200 sections. The guide has seven.
- `window.aistudio` (`hasSelectedApiKey`, `openSelectKey`) is modelled as two booleans: whether the host exists and whether it reports a selected key. ImageStudio.Studio.BeginGenerate uses one reading of the key for both calls that the source makes on line 30-31.
- `FileReader`, the clipboard, timers (`components/PromptCopy.tsx`), `console` logging, React rendering, styling and scrolling are host APIs or presentation.
- The static guide text of `data.tsx`, `components/Playground.tsx` (tab UI) and `types.ts` (data shapes only) are not part of this model. Of them, only the seven section ids and the `ChatMessage` shape are used.
- The code is followed where a reader might expect otherwise:
  - An interrupt resets the cursor to 0, not to the device clock (`components/demos/LiveVoice.tsx:120`).
  - `disconnect` neither clears the active sources nor resets the cursor (`components/demos/LiveVoice.tsx:24-39`).
