# Verification of the HAAP SDK's protocol machines and checkers

A Dafny model of the parts of the HAAP SDK whose guarantees are about whole runs, with proofs of those
guarantees: the placed egress control channel, the Assembler client and its framing, the Node frame
reader, the SOCKS5 drivers, the TLS pump, source-bundle acceptance and the final archive, the template
validator and extractor, and the removal of generated launchers.

`dafny verify dfyconfig.toml` checks everything. Code that computes a value is a function; code that
works by changing things is a class or a method with loops, proved against a specification function,
and the theorems are about those functions or about every run of them. Sockets, pipes, the TLS object,
the clock and the scheduler are environments that may do anything their comments say; the theorems hold
for every such behaviour.

| file | what it models |
|---|---|
| `Bytes`, `Wrappers`, `Lists`, `Text`, `Sorting`, `Json`, `Trees` | bytes and big-endian integers, Python string operations, `sorted`, JSON with visible key order, file trees |
| `Framing`, `FrameReader` | the wire format; the Node reader as an object driven by data, read and close events |
| `Egress`, `Mux`, `ControlProtocol`, `ControlChannel`, `ControlFates` | the control channel: its bytes, the machine of threads and broker, the object as the code runs it, and when a request is answered |
| `WireBytes` | frames, handshake, control messages and SOCKS5 requests as literal bytes |
| `AssemblerNet`, `AssemblerClient` | connections to an Assembler that may be late or vanish; the client with time-out, re-dial and one retry |
| `Socks5`, `Socks5Laws`, `Socks5Errors`, `TlsPump` | the blocking and the async handshake over a broker that takes its time, what they come to, when they differ and what each failure is reported as; and the ciphertext pump |
| `SourceBundle`, `SourceRules`, `BundleOrder`, `BundleLayout`, `Closure` | upload acceptance, its rules declared, file-tree layout, the final archive, the closure hash input |
| `Template`, `TemplateRules`, `TemplateCodes`, `TemplateOrder` | the validator, its rules declared, which code each broken rule gets and where, and its independence of key order |
| `ClaimTrails`, `ClaimOrder`, `TemplateLists` | authority claims as trails, the order a traversal meets them in, and when two lists of errors are equal |
| `Segments`, `Extract`, `ExtractLaws`, `DraftLaws` | name normalisation, extraction, that what it drafts validates, and what it says of each tool |
| `Launchers`, `LauncherLaws`, `Paths`, `RecordRows` | the destructive walk, where a RECORD row points, the rows pip writes, and which of them go |

How the control channel fits together: `ControlProtocol` is a machine whose steps are a thread taking
the lock, writing some bytes, reading some, giving up, and the broker starting a reply or sending one
byte of it. `ControlChannel.ControlChannel` has the methods of the source's channel, statement by
statement, and takes one machine step for each statement that touches the pipe: its trace is a run of
the machine, and every theorem about runs is one about these methods. Waiting for the lock is in the machine; the object's `Request` starts when the lock is
its own to take.

## What the proofs found

Each of these is a place where the code does not keep what its text promises or, for the TLS pump and
the two SOCKS5 drivers, what a caller may expect of it, with the exact condition and a witness.

- `validate_v1` promises a list for every document. It raises exactly when a framework kind, or an
  action or a risk of a tool with an id, is itself a list or a dict (`Template.ValidateV1`; witness
  `TemplateRules.ListKindExists`).
- Its docstring invites callers to compare two results directly. The list's order follows key order:
  the results agree as multisets, and as lists exactly if the claims of any two different paths come in
  the same order in both documents and so do the undeclared constraint keys
  (`TemplateLists.ListsAgreeIff`, `TemplateLists.ListsAgreeIffInOrder`); two claims in one dict already
  differ (`TemplateLists.DirectComparisonFails`).
- `build_template`'s error blames the extractor. A bad template name or version reaches it
  (`ExtractLaws.BuildIff`, `ExtractLaws.BadNameIsBlamed`; witness `ExtractLaws.BadNameExists`), and so
  do two extractions into one report that share an id (`ExtractLaws.ReusedReportIff`; witness
  `ExtractLaws.TwiceFails`).
- The final archive never loses an accepted byte, but a generated `__main__.py` can collide with an
  upload: one that differs from it in case alone, or one that lies under it as under a folder, in any
  case (`BundleLayout.CollidesOnlyWithGeneratedMain`; witness `BundleLayout.ShoutedArchive`).
- The RECORD row of a removed file is meant to go with it. It does exactly if no part of the path
  holds a comma, a double quote, a backslash or a character at which `str.splitlines` cuts (line feed,
  carriage return, vertical tab, form feed, U+001C to U+001E, U+0085, U+2028, U+2029), or if every line
  of the row, misread, hits a removed file and the last line another one; a row of the second kind also
  goes when its own file stays (`RecordRows.RowGoesExactly`, `RecordRows.RowOfRemovedGoesIff`;
  witnesses `RecordRows.BackslashHits`, `RecordRows.CommaHits`, `RecordRows.BreakHits`). A RECORD of
  paths with none of these becomes the one pip would have written without the removed files
  (`RecordRows.RecordLeft`).
- A normal return of the TLS pump does not mean that all ciphertext is out: `recv` leaves something in
  the outgoing buffer exactly if a close_notify decided it with output unsent, or if it asked for no
  byte on a buffer already full; the empty `sendall` likewise (`TlsPump.TlsOverStream.Recv`,
  `TlsPump.TlsOverStream.SendAll`; witnesses `TlsPump.CloseNotifyStrandsOutput`,
  `TlsPump.TlsErrorStrandsOutput`).
- The two SOCKS5 drivers take one time-out and mean two things by it. It bounds each operation of the
  blocking driver and the whole of the async one, so they end alike exactly if the waits together stay
  within it, or if the blocking driver also times out in a read with no byte in between
  (`Socks5Laws.DriversAgreeIff`); a broker that sends a byte every twenty seconds is waited for by one
  and given up by the other (`Socks5Laws.SlowBrokerDiffers`).
- A re-dial that fails after the first try leaves a closed socket that no later call dials again
  (`AssemblerClient.AssemblerClient.Invoke`; witness `AssemblerClient.StuckAfterFailedRedial`).

## Model

| member | source | states |
|---|---|---|
| ControlProtocol.RepliesAreForTheirRequests | python/src/hawcx_haap/egress.py:811-875 | in every run, an outcome taken from a reply is the broker's whole six-byte reply at the position where the broker itself parsed that caller's own request |
| ControlProtocol.HandlesAreVended | python/src/hawcx_haap/egress.py:811-875 | in every run, a handle returned is one the broker vended for that same request, and no reply is used for two |
| ControlProtocol.FreeMeansInStep | python/src/hawcx_haap/egress.py:811-875 | lock free and not retired: every request is whole on the wire, answered by six bytes, and all of them were consumed |
| ControlProtocol.RetiredForGood | python/src/hawcx_haap/egress.py:822-848 | retirement is permanent and no request is started after it; only a write already under way may finish |
| ControlProtocol.RetiredTurnsAway | python/src/hawcx_haap/egress.py:838-843 | in every run on from retirement, every call that was not in flight ends in the retired error, with no slot on the wire |
| ControlProtocol.KeptIff | python/src/hawcx_haap/egress.py:846-874 | a request in flight ends with the channel in service exactly on a whole reply that encodes a legal verdict |
| ControlProtocol.StepKeeps | python/src/hawcx_haap/egress.py:835-874 | every step of every thread and of an in-order broker keeps the invariant that the channel is in step or retired |
| ControlProtocol.RunKeeps | python/src/hawcx_haap/egress.py:835-874 | hence every run does, from the fresh channel on |
| ControlChannel.ControlChannel.constructor | python/src/hawcx_haap/egress.py:816-820 | a new channel has an empty trace and is in service |
| ControlChannel.ControlChannel.SendAll | python/src/hawcx_haap/egress.py:847-848 | all of the request goes out, or the error, while broker and other threads move; the trace stays a legal run |
| ControlChannel.ControlChannel.Recv | python/src/hawcx_haap/egress.py:850-854 | at most the bytes asked for, taken in order from what the broker sent for this request; none only when it closed |
| ControlChannel.ControlChannel.Exchange | python/src/hawcx_haap/egress.py:846-874 | the request ends with one log entry for it and the lock free, answered exactly if its bytes go out and six reply bytes come in before a time-out, an error or a close, and otherwise with the error of what came first and the channel retired |
| ControlChannel.ControlChannel.ReadReply | python/src/hawcx_haap/egress.py:849-874 | the same from the reading loop on: over any fragmentation it reads on until there are six bytes or something stops it |
| ControlChannel.ControlChannel.Judge | python/src/hawcx_haap/egress.py:867-874 | the outcome of six bytes read in step is what they parse to, and the call's log entry says so |
| ControlChannel.ControlChannel.Request | python/src/hawcx_haap/egress.py:835-874 | the call is a run of the machine; a bad host or port or a retired channel puts no byte on the pipe; the outcome of any other is its fate, told from what the rest of the world will do; the channel stays in service exactly on a legal verdict, other threads aside |
| ControlChannel.ControlChannel.Connect | python/src/hawcx_haap/egress.py:895-904 | the vended handle returned is the broker's encoded answer to this very request; one that is no pipe retires the channel; every other outcome is the request's |
| ControlFates.WholeCallAnswers | python/src/hawcx_haap/egress.py:846-855 | in step and in service, a request whose reply is sent and arrives in any fragments is answered with that reply |
| ControlFates.WriteTrouble | python/src/hawcx_haap/egress.py:855-866 | what events without trouble decide stays decided; otherwise the first time-out is reported as one, and the first error of the pipe as a transport failure |
| ControlFates.ReadTrouble | python/src/hawcx_haap/egress.py:849-866 | the same while the reply is read |
| Mux.MuxRequest | python/src/hawcx_haap/egress.py:537-554 | a request exists exactly for a port in range and an encodable host, and carries the process id, port and encoded host |
| Mux.ParseReqIff | python/src/hawcx_haap/egress.py:537-554 | a request stands at the head of a byte string exactly where its encoding does |
| Mux.RequestsUnique | python/src/hawcx_haap/egress.py:537-554 | any concatenation of requests splits back into the same list of process id, port and host |
| Mux.AcceptsIff | python/src/hawcx_haap/egress.py:557-578 | a handle is accepted exactly from the encoding of a vend of that non-zero handle |
| Mux.KeepsIff | python/src/hawcx_haap/egress.py:801-808 | a reply counts as a refusal exactly if it encodes a legal one, and never parses as a handle |
| Mux.ReplyReadsBack | python/src/hawcx_haap/egress.py:557-594 | every legal verdict reads back as the handle or as the error that its status and code stand for |
| Mux.OtherRepliesAreProtocolErrors | python/src/hawcx_haap/egress.py:557-594 | every other reply, of any length, is a protocol error and never a policy verdict |
| WireBytes.MuxRequestBytes | python/src/hawcx_haap/egress.py:551-554 | a request byte for byte: 2, the process id in four bytes, the port in two, the host with its length in front |
| WireBytes.VendBytes | python/src/hawcx_haap/egress.py:566-573 | a handle is vended by status 0 and code 0, in four bytes |
| WireBytes.RefusalBytes | python/src/hawcx_haap/egress.py:568-594 | what each status and code with an empty handle field is reported as |
| WireBytes.MalformedBytes | python/src/hawcx_haap/egress.py:562-577 | and replies of another length, or with a handle that should not be there |
| Egress.EncodeHost | python/src/hawcx_haap/egress.py:208-229 | ASCII hosts pass through unchanged and are refused only for length or a NUL; every result is 1 to 255 octets without NUL |
| WireBytes.HostRefusals | python/src/hawcx_haap/egress.py:208-229 | what a host is refused for, and when |
| AssemblerClient.AssemblerClient.Invoke | python/src/hawcx_haap/ipc.py:695-728 | an answer is the Assembler's to this request and nothing earlier; at most two dials and two sends, none repeated after a verdict or a time-out; a second send only on a freshly greeted connection; the Assembler hears a request twice exactly if it heard both tries, the first having lost its connection; exactly when a failed re-dial is remembered |
| AssemblerClient.AssemblerClient.Attempt | python/src/hawcx_haap/ipc.py:711-728 | the try statement with its except arms: exactly when the request is sent again, and on which connections anything was written |
| AssemblerClient.HeardTwiceIff | python/src/hawcx_haap/ipc.py:711-728 | what was written on two connections at most was heard twice exactly if it was heard on both |
| AssemblerClient.AssemblerClient.Again | python/src/hawcx_haap/ipc.py:714-728 | the except arm: one dial, one send on the new connection, its own answer |
| AssemblerClient.AssemblerClient.InvokeOnce | python/src/hawcx_haap/ipc.py:730-764 | one write and one frame read: its own answer, a response for type 0x53, a rejection for 0x54 and an error for any other; or a time-out that closes and flags, or an error that leaves nothing to be misread |
| AssemblerClient.AssemblerClient.Reconnect | python/src/hawcx_haap/ipc.py:666-693 | the old socket is closed before the dial; the flag is cleared only with a greeted connection; at most one connection is ever open |
| AssemblerClient.AssemblerClient.Close | python/src/hawcx_haap/ipc.py:790-794 | closes this connection's end and touches no other |
| AssemblerClient.Connect | python/src/hawcx_haap/ipc.py:600-664 | a connection comes back only after a welcoming handshake from the Assembler role; on any error nothing stays open, and an error about the peer's frame is what that frame deserves |
| AssemblerClient.PerformHandshake | python/src/hawcx_haap/ipc.py:299-317 | the peer's role byte, only from a handshake frame of the same major version |
| WireBytes.HandshakeChecked | python/src/hawcx_haap/ipc.py:292-317 | the type, length, major version and role that are looked for in the peer's handshake, byte by byte, and the error of each |
| WireBytes.HelloBytes | python/src/hawcx_haap/ipc.py:281-300 | the agent's own handshake as fourteen bytes |
| WireBytes.ToolCallBytes | python/src/hawcx_haap/ipc.py:745 | a tool call is a frame of type 0x52 |
| AssemblerClient.StuckAfterFailedRedial | python/src/hawcx_haap/ipc.py:710-728 | a connected client whose first call is answered and whose re-dial finds the Assembler not running: the next call dials nothing and fails on the closed socket, though a dial would succeed |
| AssemblerClient.RedialFails | python/src/hawcx_haap/ipc.py:710-728 | the same from any client with a used-up connection |
| AssemblerClient.InvokeAll | python/src/hawcx_haap/ipc.py:656-728 | against an Assembler that serves one request per connection and is always running, a run of any length returns each call its own answer, as a response exactly for type 0x53 and a rejection exactly for 0x54, and every request is served exactly once, in order |
| AssemblerClient.Exchange | python/src/hawcx_haap/ipc.py:741-743 | an exchange in step ends in step, spent, timed out or on a closed socket |
| AssemblerClient.RecvExact | python/src/hawcx_haap/ipc.py:248-255 | exactly n bytes off the stream in order, over any fragmentation, no single read above 65536; or the failure |
| AssemblerClient.ReadFrame | python/src/hawcx_haap/ipc.py:258-271 | a frame returned consumed exactly its own encoding; an illegal length consumed four bytes |
| AssemblerClient.ReadFrames | python/src/hawcx_haap/ipc.py:258-271 | over any fragmentation, reading from a frame boundary returns the Assembler's next frames in order and stops at the boundary behind them |
| AssemblerClient.FrameAtBoundary | python/src/hawcx_haap/ipc.py:258-271 | read from a frame boundary, it is the frame the Assembler put there, up to the next boundary |
| AssemblerClient.ReadAfterAsk | python/src/hawcx_haap/ipc.py:745-763 | a frame read after a request is the Assembler's answer to the last frame it heard |
| AssemblerClient.NoIllegalAfterAsk | python/src/hawcx_haap/ipc.py:262-268 | a well-framed Assembler never shows the client an illegal length where an answer is awaited |
| FrameReader.FrameReader.OnData | node/src/ipc.ts:240-243 | after a chunk every promise is what the whole stream determines, and no waiter is left before a whole or illegal frame |
| FrameReader.FrameReader.Read | node/src/ipc.ts:293-303 | a new promise with the next number; settled at once if a frame is buffered, rejected at once after a close |
| FrameReader.FrameReader.OnClose | node/src/ipc.ts:249-258 | all pending reads are rejected with the first close's own error, or as closed by the peer if it has none, whatever is still buffered; later closes change nothing |
| FrameReader.FrameReader.OnError | node/src/ipc.ts:245-247 | an error event rejects all pending reads with that error, unless the reader was closed before |
| FrameReader.FrameReader.Drain | node/src/ipc.ts:260-264 | terminates, with no waiter left or an incomplete frame at the head |
| FrameReader.FrameReader.TryReadOne | node/src/ipc.ts:266-291 | one waiter gets the next frame of the stream, or the length error that stays in place; false exactly on an incomplete frame |
| FrameReader.ResolvedIff | node/src/ipc.ts:224-304 | the i-th read resolves exactly if i frames came before it and it was made, and its frame arrived, before the close |
| FrameReader.SettlesOnce | node/src/ipc.ts:224-304 | no later event changes a settled promise |
| FrameReader.SettlesInOrder | node/src/ipc.ts:224-304 | promises settle in the order of the reads |
| FrameReader.ChunkingIrrelevant | node/src/ipc.ts:240-303 | while open, only the concatenated bytes and the number of reads count |
| FrameReader.DeliversInOrder | node/src/ipc.ts:202-291 | a list of encoded frames in any chunks, among any reads, resolves the reads to that list |
| FrameReader.IllegalLengthEndsDelivery | node/src/ipc.ts:266-282 | after an illegal length no read beyond the frames before it resolves |
| FrameReader.IllegalLengthRejects | node/src/ipc.ts:266-282 | behind any frames an illegal length word rejects every further read, with the length it gave |
| FrameReader.FirstCloseDecides | node/src/ipc.ts:245-303 | the first close of a run rejects every read pending then or made later with the error it carries |
| FrameReader.EncodeIntoBuffer | node/src/ipc.ts:202-213 | the buffer filled in place holds the encoded frame; an oversized payload is refused with its length |
| Framing.FramesConserve | node/src/ipc.ts:266-291 | delivered frames re-encoded, then the rest, are the bytes received |
| Framing.FramesUnique | node/src/ipc.ts:266-291 | any list of encoded frames parses back as that list and no other |
| Framing.ReadsAgreeWithParse | python/src/hawcx_haap/ipc.py:258-271 | frames read one at a time by exact lengths are the first frames of the buffering reader's parse, and both stop at the same illegal length |
| Framing.EncodeFrameReadsBack | python/src/hawcx_haap/ipc.py:239-245 | what is emitted reads back as the masked type and the payload; refused is exactly what could not be read back |
| WireBytes.FrameBytes | python/src/hawcx_haap/ipc.py:239-245 | a frame byte for byte, and the limit of 65536 on type and payload |
| Socks5.ConnectSync | python/src/hawcx_haap/egress.py:328-363 | for every fragmentation, timing and time-out, result and bytes consumed are those of the specification with a limit on each wait; the socket is open exactly on success |
| Socks5.ConnectAsync | python/src/hawcx_haap/egress.py:390-427 | the async driver refines the same specification with one deadline over connect and handshake together |
| Socks5.RecvExactSync | python/src/hawcx_haap/egress.py:313-325 | exactly n bytes over any fragmentation, or the error the end of the stream or the first late byte stands for |
| Socks5.RecvExactAsync | python/src/hawcx_haap/egress.py:366-378 | the same over awaits, against the running clock |
| Socks5Laws.SucceedsIff | python/src/hawcx_haap/egress.py:328-363 | under either limit, success exactly if nothing is late and the stream starts with an acceptance of RFC 1928 sections 3 and 6, of which every byte and no other is consumed |
| Socks5Laws.AtMost264 | python/src/hawcx_haap/egress.py:241-363 | at most 264 bytes are ever consumed |
| Socks5Laws.PeerCredIff | python/src/hawcx_haap/egress.py:286-325 | the peer-credential error means exactly that, nothing being late, the broker took the dial and went away before its first reply byte |
| Socks5Errors.DeniedIff | python/src/hawcx_haap/egress.py:253-257 | a policy denial exactly if, nothing being late or broken, a whole header with code 2 came |
| Socks5Errors.UnreachableIff | python/src/hawcx_haap/egress.py:258-259 | an unreachable host exactly if the code is 4 |
| Socks5Errors.OtherCodeIff | python/src/hawcx_haap/egress.py:260-268 | a protocol error with its number exactly for every other code but 0 |
| Socks5Errors.BadAddressIff | python/src/hawcx_haap/egress.py:271-280 | a bound address of unknown type, exactly |
| Socks5Errors.MethodIff | python/src/hawcx_haap/egress.py:241-250 | a refused and an unsupported method, exactly |
| Socks5Errors.VersionIff | python/src/hawcx_haap/egress.py:243-244 | a version other than 5 in either reply, exactly |
| Socks5Errors.TruncatedIff | python/src/hawcx_haap/egress.py:300-325 | a truncated handshake, exactly |
| Socks5Errors.LateMeans | python/src/hawcx_haap/egress.py:303-325 | what the first late wait is reported as: a dial, a write, a read, or the deadline |
| Socks5Laws.DriversAgreeIff | python/src/hawcx_haap/egress.py:313-427 | the two drivers end alike, in result and bytes, exactly if the waits together stay within the time-out, or the first wait too long by itself is a read that no byte separates from the deadline |
| Socks5Laws.DriversAgreeInTime | python/src/hawcx_haap/egress.py:313-427 | with all waits together inside the time-out both end as the bytes alone decide |
| Socks5Laws.SteadyBrokerDiffers | python/src/hawcx_haap/egress.py:313-427 | with every wait short but the whole too long, the blocking driver ends as the bytes decide and the async one in its time-out |
| Socks5Laws.SlowBrokerDiffers | python/src/hawcx_haap/egress.py:313-427 | an acceptance at twenty seconds a byte with a time-out of thirty: success in one driver, a time-out in the other |
| Socks5.RequestReadsBack | python/src/hawcx_haap/egress.py:232-238 | the request, read as RFC 1928 section 4 does, names the encoded host and the port |
| WireBytes.SocksBytes | python/src/hawcx_haap/egress.py:232-238 | greeting and request byte for byte, and when there is none |
| TlsPump.TlsOverStream.Io | python/src/hawcx_haap/egress.py:748-764 | all ciphertext produced is on the wire, in order, at every normal return and before every wait; which step decides the call, what it returns and what that leaves; a write takes the front of its view once, and a read loses no plaintext |
| TlsPump.LeftIsLastOutput | python/src/hawcx_haap/egress.py:748-764 | what an unflushed end leaves in the buffer is the output of the deciding step alone, every earlier step's having been sent |
| TlsPump.TlsOverStream.Refill | python/src/hawcx_haap/egress.py:752-758 | the outgoing buffer is drained before the blocking read; what the peer sent goes in unchanged, and its end as an end |
| TlsPump.TlsOverStream.Recv | python/src/hawcx_haap/egress.py:769-775 | the plaintext of the deciding step, n bytes at most, and nothing at a close_notify; a normal return leaves something unsent exactly if a close_notify with output decided it, or no byte was asked for on a full buffer |
| TlsPump.TlsOverStream.RecvEach | python/src/hawcx_haap/egress.py:769-775 | over reads of any sizes, what they return is all the plaintext that came out of the TLS object, in order |
| TlsPump.TlsOverStream.SendAll | python/src/hawcx_haap/egress.py:777-781 | every plaintext byte is handed over exactly once, in order, a prefix on failure; only the empty call returns on a full buffer |
| TlsPump.CloseNotifyStrandsOutput | python/src/hawcx_haap/egress.py:769-775 | recv and then an empty sendall return normally with the close_notify's output unsent |
| TlsPump.TlsErrorStrandsOutput | python/src/hawcx_haap/egress.py:748-775 | after another TLS error an empty recv returns normally on the output it left |
| SourceBundle.ReadSources | python/src/hawcx_haap/source_bundle.py:136-182 | accepted exactly within the bounds, with distinct folded names and no entry under a file; the result maps each file to its bytes |
| SourceBundle.ReadEntries | python/src/hawcx_haap/source_bundle.py:141-177 | the entry loop, its sums and its two maps |
| SourceRules.AcceptableIff | python/src/hawcx_haap/source_bundle.py:73-182 | acceptance rule by rule: names, types, encodings, endings, sizes and contents of each entry, and the bounds on all |
| SourceRules.SourcesAreSafe | python/src/hawcx_haap/source_bundle.py:73-100 | no accepted file has a path that leaves its folder, is longer than 240 characters or reaches a reserved place |
| SourceBundle.FileAbove | python/src/hawcx_haap/source_bundle.py:178-181 | finds a file above a name exactly if there is one |
| SourceBundle.BlockedIsConflict | python/src/hawcx_haap/source_bundle.py:178-181 | the prefix lookup refuses exactly when some entry lies under a file entry, up to case |
| BundleOrder.OrderIrrelevant | python/src/hawcx_haap/source_bundle.py:136-182 | acceptance and the resulting map do not depend on entry order |
| BundleOrder.SourcesHave | python/src/hawcx_haap/source_bundle.py:177 | every accepted file keeps its bytes |
| BundleOrder.SourcesOnly | python/src/hawcx_haap/source_bundle.py:177 | and nothing else is in the map |
| BundleLayout.LaysIff | python/src/hawcx_haap/source_bundle.py:143-181 | entries fit on a file tree without case, each file with its bytes, exactly if no entry lies under a file |
| BundleLayout.Entrypoint | python/src/hawcx_haap/source_bundle.py:185-225 | succeeds exactly under its checks; nothing but a missing `__main__.py` is added, an uploaded one is never replaced |
| BundleLayout.UploadsMissTrusted | python/src/hawcx_haap/source_bundle.py:89-99 | no accepted upload meets a runtime member, METADATA or the build record, not even up to case |
| BundleLayout.ArchiveIsDisjointUnion | python/src/hawcx_haap/source_bundle.py:291-304 | the archive is the disjoint union of uploads, entry point, runtime and record, each with its own bytes |
| BundleLayout.CollidesOnlyWithGeneratedMain | python/src/hawcx_haap/source_bundle.py:185-225 | exactly which two members can collide where case is ignored |
| BundleLayout.ShoutedArchive | python/src/hawcx_haap/source_bundle.py:185-225 | an accepted upload of two modules whose completed map holds `__MAIN__.py` and the generated `__main__.py` |
| Closure.FeedDigest | python/src/hawcx_haap/source_bundle.py:270-277 | the loop feeds the digest the sorted, length-prefixed encoding |
| Closure.PreimageDecodes | python/src/hawcx_haap/source_bundle.py:270-277 | a decoder recovers the sorted files from the hash input |
| Closure.PreimageInjective | python/src/hawcx_haap/source_bundle.py:270-277 | equal hash inputs exactly for the same files, in any order |
| Closure.NamesAscend | python/src/hawcx_haap/source_bundle.py:274 | files come in strictly ascending order of their names, a front before the whole and by code point |
| Closure.TwoFiles | python/src/hawcx_haap/source_bundle.py:274-276 | the bytes fed for two files, whichever was put in first |
| Closure.MembersInNameOrder | python/src/hawcx_haap/source_bundle.py:306-307 | the written order depends only on the map |
| Template.ErrorList.ScanAuthority | python/src/hawcx_haap/template.py:94-102 | appends the scan of the node, in order, and nothing else |
| Template.ErrorList.CheckKeys | python/src/hawcx_haap/template.py:118-126 | V3 to V5: header, missing keys sorted, unknown keys sorted without the authority keys |
| Template.ErrorList.CheckFields | python/src/hawcx_haap/template.py:128-141 | V6 to V9, and when the framework lookup raises |
| Template.ErrorList.CheckTools | python/src/hawcx_haap/template.py:143-174 | the tool loop: its errors, the ids it declares, and exactly when it raises |
| Template.ErrorList.CheckTool | python/src/hawcx_haap/template.py:145-174 | one turn of it |
| Template.ErrorList.CheckConstraints | python/src/hawcx_haap/template.py:176-183 | V16 over the constraint keys |
| Template.ValidateV1 | python/src/hawcx_haap/template.py:105-184 | the appending code equals the validator as one function; a list comes back exactly if the kind, and every action and risk of a tool with an id, is a scalar |
| TemplateRules.ScanExact | python/src/hawcx_haap/template.py:94-102 | the scan reports exactly the authority keys reachable by any steps through dicts and lists, each at its path |
| TemplateRules.ValidIff | python/src/hawcx_haap/template.py:105-184 | the empty list comes back exactly for documents that keep the declared rules |
| TemplateRules.ListKindExists | python/src/hawcx_haap/template.py:133-138 | a document on which the validator raises |
| TemplateCodes.IssuesAreFaults | python/src/hawcx_haap/template.py:116-184 | a code is in the list, at a path, exactly if the rule it stands for is broken there: V2 to V16, one by one |
| TemplateCodes.NoDict | python/src/hawcx_haap/template.py:113-114 | anything but a dict gets one error at the root |
| TemplateCodes.ClaimPath | python/src/hawcx_haap/template.py:94-102 | a claim's path is written step by step, a key behind a dot and an index in brackets |
| TemplateCodes.DecimalReads | python/src/hawcx_haap/template.py:102 | an index in a path is its decimal digits, with no zero in front of others |
| TemplateOrder.KeyOrderIrrelevant | python/src/hawcx_haap/template.py:94-184 | permuting keys at every depth keeps the errors as a multiset, and validity |
| ClaimTrails.ScanMarks | python/src/hawcx_haap/template.py:94-102 | the scan reports the trails to the claims, rendered, in traversal order |
| ClaimOrder.TrailsOrdered | python/src/hawcx_haap/template.py:94-102 | in that order a claim comes before what lies below it, and claims that part follow the order of the keys or items where they do |
| TemplateLists.ListsAgreeIff | python/src/hawcx_haap/template.py:108-113 | for documents that differ in key order only, the lists are equal exactly if the claims of any two different paths alternate alike and any two undeclared constraint keys come in the same order |
| TemplateLists.ListsAgreeIffInOrder | python/src/hawcx_haap/template.py:108-113 | where no two claims share a path: exactly if any two claims, and any two undeclared constraint keys, come in the same order |
| TemplateLists.QuietListsAgree | python/src/hawcx_haap/template.py:108-113 | with one claim and one undeclared constraint key at most, direct comparison works |
| TemplateLists.DirectComparisonFails | python/src/hawcx_haap/template.py:108-113 | two claims in one dict, swapped, give different lists |
| Segments.NormalizeIsWords | python/src/hawcx_haap/extract.py:113-118 | a name becomes its words, cut at separators and camel humps, in lower case, joined by underscores; empty exactly without an alphanumeric |
| Segments.PiecesAreWords | python/src/hawcx_haap/extract.py:113-123 | the pieces between the underscores are those words |
| Segments.FixedIffCanonical | python/src/hawcx_haap/extract.py:113-118 | normalisation is idempotent and leaves exactly the canonical names alone |
| Extract.ExtractReport.ExtractFromNames | python/src/hawcx_haap/extract.py:136-202 | the loop appends to the five lists exactly what the names give; an empty namespace changes nothing |
| Extract.ExtractReport.AddName | python/src/hawcx_haap/extract.py:155-201 | one turn of it |
| Extract.ExtractReport.BuildTemplate | python/src/hawcx_haap/extract.py:235-273 | the self-checked template, made of the header, what the caller named and the tools and nothing else, or the error |
| ExtractLaws.KeptIff | python/src/hawcx_haap/extract.py:154-187 | a name is kept exactly if it has a segment without a refused verb that no earlier name has |
| ExtractLaws.EveryNameOnce | python/src/hawcx_haap/extract.py:154-202 | every name is behind a tool or among the refused, exactly once |
| ExtractLaws.ToolsAreKept | python/src/hawcx_haap/extract.py:183-201 | the tools are those of the kept names, no id twice |
| ExtractLaws.InferFromFirstWord | python/src/hawcx_haap/extract.py:121-133 | the action follows from the first word of the name, or is the reported default |
| DraftLaws.ToolsSay | python/src/hawcx_haap/extract.py:75-201 | every tool drafted has namespace and words as its id, and the action and risk its first word stands for |
| DraftLaws.InferredIff | python/src/hawcx_haap/extract.py:121-133 | which first words count as inferred |
| DraftLaws.RefusedForVerb | python/src/hawcx_haap/extract.py:172-183 | a name is refused for a verb exactly if one of its words is among the six |
| DraftLaws.ReasonSays | python/src/hawcx_haap/extract.py:155-187 | why a name is refused: no alphanumeric in it, which of its words are among the six, or an id already taken |
| ExtractLaws.ExtractedIdGood | python/src/hawcx_haap/extract.py:172-187 | every id made is in the grammar and not privileged |
| ExtractLaws.BuildIff | python/src/hawcx_haap/extract.py:256-273 | extracted tools build exactly with a good name, a good version and distinct ids, and otherwise end in the self-check's error |
| ExtractLaws.ExtractionValidates | python/src/hawcx_haap/extract.py:235-273 | a new report with a tool always builds for valid name, version and framework |
| ExtractLaws.ReusedReportIff | python/src/hawcx_haap/extract.py:136-154 | a report extracted into twice builds exactly if no kept name of the one call and of the other, under their namespaces, make the same id |
| ExtractLaws.TwiceFails | python/src/hawcx_haap/extract.py:136-273 | any kept name, extracted twice into one report, ends in the self-check's error |
| ExtractLaws.BadNameIsBlamed | python/src/hawcx_haap/extract.py:256-273 | a sound extraction under a bad template name or version ends in the self-check's error |
| ExtractLaws.BadNameExists | python/src/hawcx_haap/extract.py:256-273 | such a call |
| Launchers.Staging.DropGeneratedLaunchers | python/src/hawcx_haap/bundle.py:182-223 | the tree that is left, RECORD included, and the files removed, each once and in order |
| Launchers.Staging.Clean | python/src/hawcx_haap/bundle.py:200-214 | one launcher directory: left is exactly what shelters something pre-existing |
| Launchers.Staging.WalkDown | python/src/hawcx_haap/bundle.py:204-212 | the loop in reverse order |
| Launchers.Staging.RewriteRecords | python/src/hawcx_haap/bundle.py:217-222 | every RECORD loses exactly the rows that point at what is gone |
| Launchers.ReverseVisitsChildrenFirst | python/src/hawcx_haap/bundle.py:204 | reverse-sorted order visits whatever is in a folder before the folder |
| Launchers.VisitStep | python/src/hawcx_haap/bundle.py:204-212 | one turn is right when all that lies below has had its turn |
| Launchers.ForwardOrderLeavesEmptyFolder | python/src/hawcx_haap/bundle.py:204-209 | in forward order a new empty folder stays behind |
| LauncherLaws.PreExistingAreLeft | python/src/hawcx_haap/bundle.py:196-214 | under the launcher directories exactly the present, pre-existing paths are left, and nothing else is touched |
| Launchers.LauncherPlaces | python/src/hawcx_haap/bundle.py:164-202 | the launcher directories are bin and Scripts, where they are directories |
| LauncherLaws.NoNewEmptyFolder | python/src/hawcx_haap/bundle.py:207-214 | no new folder is left empty |
| LauncherLaws.AfterWellFormed | python/src/hawcx_haap/bundle.py:200-214 | what is left is still a tree: no path loses the folder it lies in |
| RecordRows.RowGoesIff | python/src/hawcx_haap/bundle.py:219-222 | a row goes or stays by itself, the others keep their order |
| RecordRows.OwnRowIff | python/src/hawcx_haap/bundle.py:167-179 | the row pip writes for a path, at any climbing depth, down to its last line targets that path exactly if it holds no comma, double quote, backslash or line boundary |
| RecordRows.RowGoesExactly | python/src/hawcx_haap/bundle.py:217-222 | nothing of the row of such a path is left exactly if the path was removed; nothing of any other exactly if each of its lines is misread as a removed file, the last as another than its own |
| RecordRows.RowOfRemovedGoesIff | python/src/hawcx_haap/bundle.py:217-222 | the row of a removed file goes exactly if its path is clean in that sense or its lines hit other removed files |
| RecordRows.BackslashHits | python/src/hawcx_haap/bundle.py:167-179 | a backslash in a name is taken for a separator: the row goes exactly if the file so named was removed |
| RecordRows.CommaHits | python/src/hawcx_haap/bundle.py:220 | the quoted row of a name with a comma, two levels up, goes exactly if the file named up to the comma was removed |
| RecordRows.BreakHits | python/src/hawcx_haap/bundle.py:219-220 | a row cut at a line boundary in its name goes exactly if the files named before and after the cut were both removed |
| RecordRows.RecordLeft | python/src/hawcx_haap/bundle.py:217-222 | where every path is clean, the lines kept are those of the RECORD pip would have written without the removed files |
| RecordRows.RecordWritten | python/src/hawcx_haap/bundle.py:219-222 | and the text written back is that RECORD as read |
| RecordRows.RecordAfterDrop | python/src/hawcx_haap/bundle.py:182-223 | so after the launchers are dropped a distribution's clean RECORD is that one, and no other file outside bin and Scripts changes |
| Paths.RecordRowTarget | python/src/hawcx_haap/bundle.py:167-179 | the stripping loop computes the row's target |
| Paths.ScriptRowTarget | python/src/hawcx_haap/bundle.py:167-179 | a path that climbs and then goes down to a staged file targets that file |

## Left out

- Socks5.ConnectSync: a time-out is a whole number; None is one that no wait reaches, and 0, which makes the socket non-blocking, is not modelled. How bytes are timed, and how long a dial or a write takes, is the broker's choice.
- Which of several reasons a source bundle is refused for is reported: the source raises one exception, with a different message.
- RecordRows.RowGoesExactly: the hash and the size of a row hold no line boundary; names that are not UTF-8 are not modelled.
- ControlChannel.ControlChannel.Request: starts when the thread has its turn at the lock; waiting, and which waiter is next, are in the machine of ControlProtocol, and a thread adopts one vended handle before it asks for another.
- AssemblerClient.AssemblerClient.Invoke: is for clients that only invoke; send_clarification_answer writes a frame whose answer no call reads, so a client that uses it is outside the in-step claims.
- AssemblerClient.RecvExact: other socket errors than reset, broken pipe, time-out and a closed descriptor are not told apart.
- AssemblerClient.ReadFrame: after an illegal length the code raises and keeps the socket; the run theorems assume a well-framed Assembler, for which that does not happen.
- Template.ValidateV1: keys are strings; YAML's other keys, floats and the Unicode table behind `\d` (a parameter) are not modelled.
- Closure.PreimageInjective: str.encode is any injective encoding; that it raises on lone surrogates, and the hash function itself, are not modelled.
- Extract.ExtractReport.AddName: the wording of a refusal and the order of the verbs in it are not modelled.
- Launchers.Staging.DropGeneratedLaunchers: symbolic links, permissions and a RECORD that is a folder are not modelled; a file is the list of its lines.
- Control replies longer than six bytes: the client reads exactly six, so the channel's guarantee is for brokers that send no more per request.
- Interruptions such as KeyboardInterrupt in the middle of a control request.
- Sockets, `stat`, uid and mode checks, SO_PEERCRED, environment variables, Windows handles: environments that yield a chunk, an end, a reset or a time-out.
- JSON and base64 of tool calls and responses; a payload is its bytes.
- TLS itself, IDNA and the SHA-256 function: parameters or omitted.
- `_check_sources`, the ZIP end record, byte layout of the archive and zipapp: ast and zipfile wiring.
- The syntax check of a `--main` option and the search for its function in the module's AST: parameters of `BundleLayout.Entrypoint`.
- `mcp_caller.py`: one decision over a list of documents and one tree scan, neither of which keeps state or spans functions.
- `extract_from_mcp_tools_list`, `load_template`, `summary`, the CLI, submit, wrap, auth_ipc, adapters and the Rust helper: parsing, text or thin wrappers.
