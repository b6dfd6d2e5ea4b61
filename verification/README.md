# Verified models of the cores

Six cores of the repository are modelled in Dafny, in the form the source has them (classes and loops where the
source updates state, functions where it computes values), and proved against independent specifications.
`dafny verify dfyconfig.toml` checks everything.

**HTTP request parser** (`Http*.dfy`, `lib/http-parser/http_parser.c`, requests in strict mode). `HttpStep` is a
reference parser: one byte at a time, every data byte reported on its own. `HttpExecute` is `http_parser_execute` with
its marks, bulk copies and end-of-buffer callbacks, and refines the reference. On the reference rest the invariant
behind the source's assertions (`HttpInvariant`), independence of fragmentation (`HttpFragments`), the order of callbacks
and the conservation of body bytes (`HttpTrace`), what exactly is lost on an error (`HttpHeard`), exact recognisers
(`HttpNames`, `HttpHeaders`), chunked decoding as the inverse of encoding (`HttpChunked`), and the round trip of whole
pipelines of requests, with folded header lines, trailers and upgrades (`HttpRequest`, `HttpPipeline`).
`HttpUrl` and `HttpUrlParser` do the same for `http_parser_parse_url`: a URL is accepted exactly when it is composed of
legal parts, and is taken apart into those parts.

**T-Rex regular expressions** (`Trex*.dfy`, `lib/utils/trex/trex.c`). `TrexSyntax` has trees and the language of a tree,
`TrexSpelling` how trees are spelt, `TrexNodes` how a tree lies in the node array. The compiler builds, in place, nodes
that hold a tree the pattern spells, that tree is the only one (`TrexReading`), and a pattern is refused only if there
is none (`TrexRefused`). The matcher on nodes, with its look-ahead and captures, is the matcher on trees (`TrexTree`),
which is sound. It is not complete, but it is wherever the next character decides every choice (`TrexComplete`).

**Digests** (`Crc32`, `Words`, `Sha256Block`, `Sha256`, `Sha1Block`, `lib/utils/hash-library`). Slicing-by-8 refines the
bit-at-a-time CRC; unrolled compression with renamed registers refines the loops of FIPS 180-4; streaming SHA-256 yields
the digest of everything added.

**JSON** (`Json*.dfy`, `StdMap`, `lib/utils/jsonxx/jsonxx.cc`). `JsonGrammar` says how values are written, with white space,
comments and both kinds of quotes. The stream parser, with its put-back, reads every value however it is written, and so
reads back what the printer writes. Strings survive exactly when their characters do.

**Copies of std::map** (`MapClone`, `lib/fields/extended/stl/cjson_std_map_field.cpp`). The heap clone of a red-black tree.

**SQL tables** (`Sql*.dfy`, `lib/databases`). Migration of a table through the versions of its class, and alignment of the
parameters of an INSERT. `Exec` in `SqlSchema` says when a database accepts a statement.

**Tables** (`HttpTables`, `TrexTables`, `DigestTables`, `JsonTables`, and the examples `HttpExamples`, `SqlExamples`,
`VtableExamples`). Code and specification share character classes, constants and names; these modules say what they are
without them: as code points, as roots of primes, bit by bit, and as whole messages, statements and layouts.

**Virtual tables** (`Vtable*.dfy`, `lib/cjson_abi_struct.h`). Slots, primary chains and layouts without virtual inheritance.

Where the code departs from its documentation or from what one would expect, the model follows the code:

- the overflow test for lengths accepts some numbers that do not fit (`HttpNames.ContentLengthMayWrap`,
  `HttpChunked.ChunkSizeMayWrap`); which ones, and what is stored, is the subject of `HttpNames.ContentLengthIsModular`
  and `HttpChunked.ChunkSizeIsModular`;
- bytes from 0x80 on are digits 0 of a chunk size, because half of the table of digits is not written out
  (`HttpChunked.HighBytesAreZeros`);
- the port of a URL may be read beyond the end of the buffer (`HttpUrlParser.PortReadsPastTheUrl`);
  `HttpUrlParser.PortIsExact` says exactly when it is right;
- a CONNECT target "@host:80?" is accepted although the comment allows "hostname:port" only, because empty fields do not
  show (`HttpUrl.ConnectAcceptsMore`, and for all targets `HttpUrl.ConnectIsHostAndPort`);
- a folded Content-Length is the number of its last line (`HttpHeaders.FoldsRun`);
- the bytes of a trailer count against the size limit of the next head (`HttpPipeline.RequestIsReceived`);
- in T-Rex, the first alternative that matches is never reconsidered (`TrexTree.NotComplete`), optional elements end a
  repetition too early (`TrexTree.AskedTooEarly`), and a dot matches the end of the text (`TrexTree.EndIsEaten`);
  `TrexWitnesses` has a pattern and a text for each;
- the lower end of a range in a class is compared by the number of its node, so that "[z-a]" compiles and some ranges
  in order do not (`TrexWitnesses.RangesDependOnTheirPlace`);
- a comma is read as null, and so is "nul" at the end of the text (`JsonParser.Input.ParseNull`);
- a `\u` escape is written in hexadecimal and read in decimal, so not every byte survives (`JsonText.StringRoundTrip`);
- a copied map is not a map as the library builds it (`MapClone.CopyIsNoLibraryMap`);
- with two nested fields, parameters and columns of an INSERT do not agree (`SqlInsert.ParametersAlign`);
- a class without fields has an empty unique key, which the database refuses; the table is then left without one until
  there are fields again (`SqlMigration.SqlCreate`, `SqlMigration.Deploy`);
- overriders do not reach the tables of secondary bases (`VtableLayout.OverriderIsMissed`, and for all hierarchies
  `VtableLayout.CallsOnBasesAreBound` and `VtableLayout.BaseTablesAreRight`).

## Model

| member | source | states |
|---|---|---|
| HttpRun.PushJoins | lib/http-parser/http_parser.c:84-109 | two adjacent data callbacks of one kind are, in the joined trace, one callback with the concatenated bytes |
| HttpRun.RunConcat | lib/http-parser/http_parser.c:637-1860 | running over `a + b` is running over `a` and then, unless that stopped, over `b` from where it left the parser, with the consumed bytes added up |
| HttpInvariant.StepKeeps | lib/http-parser/http_parser.c:637-1860 | every byte, in every state that satisfies the invariant, keeps it or sets an error that reports nothing; a byte that stops without an error is an upgrade; a byte that stays in or enters a data state reports a byte of that kind |
| HttpInvariant.RunKeeps | lib/http-parser/http_parser.c:573-1897 | no run leaves the invariant while no error has occurred: `nread` is 0 before each chunk size, chunk states are flagged as chunked, body states have a length that is neither 0 nor 2^64-1, the header state is one the state allows and its index is in range, `nread` is within the limit; an error is always before the last consumed byte |
| HttpInvariant.DispatchKeeps | lib/http-parser/http_parser.c:660-1860 | the same for the `switch` alone, from a state whose byte has been counted (so that `nread == 1` at a chunk size start) |
| HttpInvariant.ReqMethodKeeps | lib/http-parser/http_parser.c:946-1027 | the matcher index stays within the name of the method that is being matched, through every change of method |
| HttpInvariant.FieldKeeps | lib/http-parser/http_parser.c:1274-1386 | while a header name is read, header state and index stay in step, so the index never runs past the word being matched |
| HttpInvariant.ValueKeeps | lib/http-parser/http_parser.c:1471-1566 | while a header value is read only value states occur, with an index inside the word being matched |
| HttpInvariant.HeadersDoneKeeps | lib/http-parser/http_parser.c:1603-1692 | what follows the head is a body state with a legal length, a chunk size, or a new message |
| HttpInvariant.ChunkKeeps | lib/http-parser/http_parser.c:1742-1820 | a chunk size that is accepted is never 2^64-1, and chunk data is entered with a positive one |
| HttpInvariant.BodyKeeps | lib/http-parser/http_parser.c:1694-1858 | body states keep the counter and the flags the assertions ask for |
| HttpInvariant.BulkBody | lib/http-parser/http_parser.c:1694-1729 | reading a body byte by byte is the same as taking any number of its bytes at once: the counter falls by that number, the bytes are one data run, and the message completes exactly when the counter reaches 0 |
| HttpExecute.HttpParser.constructor | lib/http-parser/http_parser.c:1949-1959 | a fresh request parser: every field zero but the state |
| HttpExecute.HttpParser.Execute | lib/http-parser/http_parser.c:573-1897 | one call of `http_parser_execute`, with marks, bulk copying and leftover callbacks, refines the byte-by-byte run: same fields, same number of bytes consumed, and the same callbacks once adjacent data callbacks are joined; on an error exactly the run of data bytes of this call that was still going on before the byte in error is missing; an empty call is end-of-file; a parser in error does nothing |
| HttpExecute.HttpParser.ParseBytes | lib/http-parser/http_parser.c:614-1890 | the same for the loop over a non-empty buffer and the callbacks for marks that are still set after it: what has been reported on an error is the run up to where the pending data began |
| HttpExecute.HttpParser.BulkRound | lib/http-parser/http_parser.c:1694-1843 | a round of the loop that copies body bytes keeps the fields, the reported callbacks and the pending run in step with the byte-by-byte run over the whole buffer |
| HttpExecute.HttpParser.ByteRound | lib/http-parser/http_parser.c:637-1860 | so does a round that reads one byte, or else the call ends there as the byte-by-byte run does |
| HttpHeard.MarksFollowData | lib/http-parser/http_parser.c:84-109 | outside bodies a mark is live behind a byte exactly when that byte belongs to a run of data |
| HttpHeard.ChunkIsOneRun | lib/http-parser/http_parser.c:1822-1843 | the bytes of a chunk belong to one run of data, whether or not the chunk ends with them |
| HttpHeard.BodyEnds | lib/http-parser/http_parser.c:1694-1729 | the last byte of an identity body leaves nothing pending behind it |
| HttpExecute.HttpParser.CountedByte | lib/http-parser/http_parser.c:637-1860 | one byte counted against the header limit: what the mark still holds, pushed onto the callbacks made, is what the byte-by-byte parser has reported |
| HttpExecute.HttpParser.Byte | lib/http-parser/http_parser.c:660-1860 | the same without the count, in every state but the two that copy in bulk |
| HttpExecute.HttpParser.Flush | lib/http-parser/http_parser.c:1862-1889 | at most one mark is set at the end of a call, and its callback reports what was pending |
| HttpExecute.HttpParser.BodyBytes | lib/http-parser/http_parser.c:1694-1729 | a bulk step takes the bytes that a run of the byte-by-byte parser would, with the same outcome |
| HttpExecute.HttpParser.BodyIdentityBytes | lib/http-parser/http_parser.c:1694-1729 | takes the smaller of what is needed and what is there; completes the message when it was all |
| HttpExecute.HttpParser.ChunkDataBytes | lib/http-parser/http_parser.c:1822-1843 | takes the smaller of the rest of the chunk and what is there, and marks it |
| HttpExecute.HttpParser.ChunkEndByte | lib/http-parser/http_parser.c:1845-1858 | the CR reports the marked data, the LF goes back to a chunk size with `nread` 0 |
| HttpExecute.HttpParser.StartReqByte | lib/http-parser/http_parser.c:905-944 | a new message: flags and length are reset, the first letter chooses a method, the begin callback is made |
| HttpExecute.HttpParser.MethodByte | lib/http-parser/http_parser.c:946-1027 | one letter of the method: goes on, changes method, ends at a space, or fails |
| HttpExecute.HttpParser.UrlCharacter | lib/http-parser/http_parser.c:1047-1095 | one character of the target: prolongs the mark, ends the target (with HTTP 0.9 at a line end), or fails |
| HttpExecute.HttpParser.SpacesByte | lib/http-parser/http_parser.c:1029-1045 | the first character of the target, from the server state for CONNECT, sets the mark |
| HttpExecute.HttpParser.VersionByte | lib/http-parser/http_parser.c:1102-1205 | one character of the version, each number at most 999 |
| HttpExecute.HttpParser.FieldStartByte | lib/http-parser/http_parser.c:1224-1272 | the first character of a header line: end of head, or a token character that chooses a header state and sets the mark |
| HttpExecute.HttpParser.FieldCharacter | lib/http-parser/http_parser.c:1274-1402 | one character of a header name, or what ends it |
| HttpExecute.HttpParser.NameCharacter | lib/http-parser/http_parser.c:1281-1379 | one token character moves the recogniser of header names as the specification says |
| HttpExecute.HttpParser.ValueStartByte | lib/http-parser/http_parser.c:1404-1469 | the first character of a header value, or an empty one |
| HttpExecute.HttpParser.ValueByte | lib/http-parser/http_parser.c:1471-1487 | a character of a header value, or the line end that reports it |
| HttpExecute.HttpParser.ValueCharacter | lib/http-parser/http_parser.c:1489-1566 | one character moves the recogniser of header values, or adds a digit to the length with the 64-bit overflow test |
| HttpExecute.HttpParser.LineEndByte | lib/http-parser/http_parser.c:1568-1589 | the end of a header line sets the flag its value has earned |
| HttpExecute.HttpParser.LwsByte | lib/http-parser/http_parser.c:1591-1601 | a blank folds the line; anything else starts the next one |
| HttpExecute.HttpParser.HeadersAlmostDoneByte | lib/http-parser/http_parser.c:1603-1649 | ends the trailer or the head, with the callback and the upgrade decision |
| HttpExecute.HttpParser.HeadersDoneByte | lib/http-parser/http_parser.c:1651-1692 | chooses between upgrade, chunked body, identity body and no body |
| HttpExecute.HttpParser.ChunkSizeByte | lib/http-parser/http_parser.c:1742-1820 | one character of a chunk size line |
| HttpExecute.StepDispatches | lib/http-parser/http_parser.c:640-657 | counting a byte against the header limit leaves the state the `switch` starts from, and the limit is never hit outside headers |
| HttpFragments.PiecesDoNotMatter | lib/http-parser/http_parser.h:72-74 | for every cut of every byte stream into pieces, successive runs end in the same fields, the same joined callbacks and the same number of consumed bytes as one run over the whole |
| HttpFragments.AnyTwoCutsAgree | lib/http-parser/http_parser.h:72-74 | so any two cuts of one stream agree |
| HttpFragments.Feed | lib/http-parser/http_parser.c:573-1897 | the same for calls of `Execute` on an object: one call per non-empty piece, stopping on an error or an upgrade; an error loses exactly the run of data that was going on in the piece in error |
| HttpFragments.Serve | lib/http-parser/http_parser.c:573-1897 | whatever bytes arrive in whatever pieces, the callbacks of a fresh parser are in grammatical order, also when an error swallows the last one |
| HttpTrace.StepBooks | lib/http-parser/http_parser.c:637-1860 | every byte keeps the ledger in agreement with the parser: callbacks in order, body bytes seen plus bytes still due equal bytes announced |
| HttpTrace.RunBooks | lib/http-parser/http_parser.c:573-1897 | along every run the callbacks are in order, every identity body has exactly its Content-Length bytes and every chunked body exactly the sum of its accepted chunk sizes when its message completes |
| HttpTrace.EveryRunIsInOrder | lib/http-parser/http_parser.c:573-1897 | this for every input to a fresh parser, over any number of pipelined messages |
| HttpTrace.ActualCallbacksInOrder | lib/http-parser/http_parser.c:1891-1897 | callbacks really made are in order too, with the one that an error loses or without it |
| HttpTrace.DeadIsSilent | lib/http-parser/http_parser.c:662-670 | once the connection is closed nothing is ever reported and the state never changes |
| HttpNames.SwitchAgrees | lib/http-parser/http_parser.c:958-1020 | a change of method goes to a name that agrees with the letters read so far |
| HttpNames.RecogniseSound | lib/http-parser/http_parser.c:946-1027 | whatever the method automaton holds is a method whose name starts with the letters read |
| HttpNames.RecogniseComplete | lib/http-parser/http_parser.c:946-1027 | every beginning of each of the 26 names is recognised |
| HttpNames.MethodRun | lib/http-parser/http_parser.c:905-1027 | a run over letters follows the recogniser, begins a message with flags and length reset, and reports nothing else |
| HttpNames.MethodsAreExact | lib/http-parser/http_parser.c:905-1027 | a word followed by a space is accepted if and only if it is one of the 26 names of the table, and the code recorded is that of the name |
| HttpNames.NameRun | lib/http-parser/http_parser.c:1224-1386 | after any token characters the header state is that of the lower-cased text, and the name is reported as one run |
| HttpNames.HeaderNamesAreExact | lib/http-parser/http_parser.c:1224-1386 | at the colon the header state is content-length, transfer-encoding, upgrade or connection if and only if the lower-cased name is that name (or proxy-connection) |
| HttpNames.AppendExact | lib/http-parser/http_parser.c:1508-1518 | a digit that keeps the value below 2^64-1 is always accepted and appended exactly; the appended value is the true one if and only if that fits in 64 bits |
| HttpNames.ContentLengthIsExact | lib/http-parser/http_parser.c:1443-1520 | a decimal Content-Length is accepted and stored exactly if and only if its value is below 2^64-1 |
| HttpNames.ContentLengthIsModular | lib/http-parser/http_parser.c:1443-1520 | what becomes of any decimal value: it is rejected if and only if the overflow test strikes at some digit, that is, of the values modulo 2^64 before and after the digit the second is smaller or 2^64-1; otherwise it is stored modulo 2^64 |
| HttpNames.SlightExcessIsRejected | lib/http-parser/http_parser.c:1443-1520 | so every value from 2^64-1 up to about a ninth above 2^64 is rejected |
| HttpNames.ContentLengthMayWrap | lib/http-parser/http_parser.c:1508-1516 | beyond that a value may slip through: a Content-Length of "3" with nineteen zeros is accepted as 11553255926290448384 |
| HttpChunked.ChunkSizeIsExact | lib/http-parser/http_parser.c:1742-1793 | a hexadecimal chunk size (where bytes from 0x80 on count as 0) is accepted and stored exactly if and only if its value is below 2^64-1 |
| HttpChunked.ChunkSizeIsModular | lib/http-parser/http_parser.c:1742-1793 | what becomes of any hexadecimal size: rejected if and only if the overflow test strikes at some digit, and stored modulo 2^64 otherwise |
| HttpChunked.SlightExcessIsRejected | lib/http-parser/http_parser.c:1742-1793 | so every size from 2^64-1 up to about a fifteenth above 2^64 is rejected |
| HttpChunked.HighBytesAreZeros | lib/http-parser/http_parser.c:180-189 | bytes from 0x80 on are read as digits 0, because the second half of the table has no initialisers: any number of them is a size of 0 |
| HttpChunked.ChunkSizeMayWrap | lib/http-parser/http_parser.c:1780-1792 | beyond that a size may slip through: "1", fifteen times F and "0" are accepted as 2^64 - 16 |
| HttpChunked.SizeLine | lib/http-parser/http_parser.c:1742-1820 | a size line, with any extension, leads to the data of that size, or to the trailer when the size is 0 |
| HttpChunked.ChunkRun | lib/http-parser/http_parser.c:1742-1858 | a whole chunk is reported as exactly its data and leaves the parser where it was |
| HttpChunked.ChunksRun | lib/http-parser/http_parser.c:1742-1858 | so is any list of chunks |
| HttpChunked.DecodingInvertsEncoding | lib/http-parser/http_parser.c:1742-1858 | decoding inverts encoding for every list of non-empty chunks (any hexadecimal spelling of the sizes, any extensions): the body is the concatenation of the data, and the message completes at the last byte, not before |
| HttpChunked.HexRoundTrip | lib/http-parser/http_parser.c:181-189 | the hexadecimal spelling of a size is read back as the size |
| HttpChunked.ReceivedIsWhatWasSent | lib/http-parser/http_parser.c:1742-1858 | the same for a client that sends blocks with lower-case sizes |
| HttpHeaders.ValueStateStep | lib/http-parser/http_parser.c:1525-1566 | one more character of a value takes the recogniser to the state of the longer text: matching, matched (spaces may follow), or neither |
| HttpHeaders.ValueRun | lib/http-parser/http_parser.c:1404-1566 | after any value the header state is that of the lower-cased text, a Content-Length (spaces may stand behind its first digit) has its value, and the value is reported as one run |
| HttpHeaders.WordMeans | lib/http-parser/http_parser.c:1573-1585 | at the line end a flag is set exactly when the value is the word, possibly followed by spaces |
| HttpHeaders.ValueLine | lib/http-parser/http_parser.c:1404-1589 | a value and its line break, CR LF or a bare LF, set what they mean and nothing else |
| HttpHeaders.FirstLine | lib/http-parser/http_parser.c:1224-1601 | the first line of a header is reported as its name and its value, and leaves the parser where it may be folded |
| HttpHeaders.FoldsRun | lib/http-parser/http_parser.c:1404-1601 | continuation lines prolong the value that has been reported; a Content-Length is that of the last line, and for other headers only the first line counts |
| HttpHeaders.HeaderLine | lib/http-parser/http_parser.c:1224-1601 | a whole header, with any continuation lines and either line break, is reported as its name and its value (the text of all lines), and adds to length and flags what its name and value say, nothing else |
| HttpHeaders.HeaderLines | lib/http-parser/http_parser.c:1224-1601 | so does any number of headers: each name and value in one piece, in order |
| HttpRequest.VersionIsExact | lib/http-parser/http_parser.c:1102-1205 | "HTTP/" major "." minor is accepted if and only if both numbers are at most 999 and the first does not start with a zero, and both are stored exactly |
| HttpRequest.TargetRun | lib/http-parser/http_parser.c:1029-1095 | the parser follows the URL automaton over a target and reports it in one piece, or fails where the automaton does |
| HttpRequest.TargetsAreExact | lib/http-parser/http_parser.c:1047-1095 | a target is accepted if and only if the URL automaton accepts it and does not end in the middle of a schema (`TargetsHaveParts` gives the grammar) |
| HttpRequest.TargetsHaveParts | lib/http-parser/http_parser.c:425-571 | these are exactly the texts composed of a legal schema and authority and a legal path, query and fragment that fit together |
| HttpRequest.LegalUrlIsTarget | lib/http-parser/http_parser.c:2111-2208 | every URL that `http_parser_parse_url` takes apart is a target the parser accepts |
| HttpRequest.RequestLineRun | lib/http-parser/http_parser.c:905-1222 | a request line that is written out is read as it was meant |
| HttpRequest.HeadEnd | lib/http-parser/http_parser.c:1603-1692 | the empty line (CR LF or a bare LF) completes the head: upgrade, chunked body, identity body or none, by the flags and the length collected |
| HttpRequest.HeadIsReceived | lib/http-parser/http_parser.c:905-1692 | a request head written out from method, target, version and headers, with folded lines and either line break, is reported as it was meant, and the parser holds its method, version, length and flags |
| HttpPipeline.ChunksAreReceived | lib/http-parser/http_parser.c:1224-1858 | a chunked body with a trailer is reported as its data, then the headers of the trailer, and completes at its last byte |
| HttpPipeline.BodyIsReceived | lib/http-parser/http_parser.c:1651-1858 | so is the body behind any head, chunked or counted |
| HttpPipeline.RequestIsReceived | lib/http-parser/http_parser.c:573-1940 | a whole request, with any body, trailer or upgrade, is reported as it was sent, completes at its last byte, and leaves the parser ready for the next request, or dead when version and flags say that the connection is to be closed |
| HttpPipeline.PipelineIsReceived | lib/http-parser/http_parser.c:573-1897 | a pipeline of any number of requests is reported request by request as it was sent; an upgrade stops the parser right behind the request that asks for it |
| HttpPipeline.PipelineInPieces | lib/http-parser/http_parser.h:72-74 | in whatever pieces its bytes arrive |
| HttpPipeline.Receive | lib/http-parser/http_parser.c:573-1897 | the same of the calls of `Execute` on an object |
| HttpTables.TokensAre | lib/http-parser/http_parser.c:136-177 | a byte is a token exactly when it lies between 0x21 and 0x7E and is none of the separators of section 2.2 of RFC 2616, and the table lower-cases letters only |
| HttpTables.LettersAndDigitsAre | lib/http-parser/http_parser.c:359-362 | letters and digits, and the value of a digit, as code points |
| HttpTables.LowerCaseIs | lib/http-parser/http_parser.c:359-359 | lower-casing by table and by setting a bit, as code points |
| HttpTables.HexDigitsAre | lib/http-parser/http_parser.c:180-189 | the value of every byte as a hexadecimal digit, the half of the table without initialisers included |
| HttpTables.NameBytesAre | lib/http-parser/http_parser.c:1274-1402 | inside a header name exactly these bytes go on, exactly colon, CR and LF end it, and any other byte is an error |
| HttpTables.NamesAreRead | lib/http-parser/http_parser.c:1224-1386 | the five header names that matter, in any mixture of upper and lower case, are accepted and recognised for what they are |
| HttpTables.MethodsAre | lib/http-parser/http_parser.h:81-113 | the words accepted as methods are the twenty-six of the map, written out, and each is stored by its number |
| HttpTables.HeadersAreLimited | lib/http-parser/http_parser.c:640-657 | outside bodies a byte is refused for the size of the head exactly when 81920 bytes have been counted before it |
| HttpTables.BodiesAreNotLimited | lib/http-parser/http_parser.c:640-657 | bodies are not limited |
| HttpExamples.Posted | lib/http-parser/http_parser.c:573-1897 | a POST with a body of five bytes, as it stands on the wire, and its seven callbacks |
| HttpExamples.PutInChunks | lib/http-parser/http_parser.c:573-1897 | a PUT in chunks with an extension and a trailer, on a connection that is to be closed, and its eleven callbacks |
| HttpUrl.ScanStepKeeps | lib/http-parser/http_parser.c:425-571 | every character the URL automaton accepts goes to exactly one part, and nothing that was read gets lost |
| HttpUrl.ScanRunKeeps | lib/http-parser/http_parser.c:425-571 | what has been read of an accepted text, put together again, is the text, and its parts are legal |
| HttpUrl.ScanIsComplete | lib/http-parser/http_parser.c:425-571 | every combination of legal parts is accepted, and read as those parts |
| HttpUrl.HostRunKeeps | lib/http-parser/http_parser.c:1973-2036 | the same soundness for the automaton of the authority |
| HttpUrl.HostIsComplete | lib/http-parser/http_parser.c:1973-2036 | and the same completeness |
| HttpUrl.ReadingIsSound | lib/http-parser/http_parser.c:2038-2208 | whatever is accepted is a legal URL, and its parts put together are the text |
| HttpUrl.ReadingIsComplete | lib/http-parser/http_parser.c:2038-2208 | every legal URL is accepted and taken apart as it was composed |
| HttpUrl.LegalUrlsAreAccepted | lib/http-parser/http_parser.c:2111-2208 | the URLs accepted are exactly those composed of legal parts, and no URL can be taken apart in two ways |
| HttpTables.UrlCharactersAre | lib/http-parser/http_parser.c:361-376 | the characters of paths, queries, fragments, user names, hosts and addresses, written out |
| HttpUrl.ConnectIsHostAndPort | lib/http-parser/http_parser.c:2191-2195 | an accepted CONNECT target is host, colon and port and nothing else if and only if there is no at sign, question mark or hash in it |
| HttpUrl.ConnectAcceptsMore | lib/http-parser/http_parser.c:2191-2195 | not all are: "@host:80?" is accepted |
| HttpUrlParser.RangeStep | lib/http-parser/http_parser.c:2168-2186 | a character extends the field of the one before it, or starts a field where the text read so far ends; other fields stay |
| HttpUrlParser.HostRangeStep | lib/http-parser/http_parser.c:2056-2091 | the same for userinfo, host and port |
| HttpUrlParser.FieldsAreInOrder | lib/http-parser/http_parser.h:236-262 | non-empty fields are disjoint and come in the order schema, userinfo, host, port, path, query, fragment |
| HttpUrlParser.FieldsAreRuns | lib/http-parser/http_parser.h:236-262 | every non-empty field is one contiguous run inside the URL and has the text of its part |
| HttpUrlParser.PortIsExact | lib/http-parser/http_parser.c:2196-2205 | the port number is the decimal value of the port field if and only if the port is followed by something in the buffer, or the buffer is not followed by a digit, or all digits up to the next other character are zeros |
| HttpUrlParser.PortReadsPastTheUrl | lib/http-parser/http_parser.c:2196-2205 | without that guard it is not: the first four characters of "a:808" have port 80 and yield 808 |
| HttpUrlParser.ParserUrl.ScanFields | lib/http-parser/http_parser.c:2122-2186 | the first loop fails exactly when the automaton does, and leaves every field where its characters were read |
| HttpUrlParser.ParserUrl.ParseHost | lib/http-parser/http_parser.c:2038-2109 | the authority is taken apart: fails exactly when it is not legal, and moves host, port and userinfo to where they are |
| HttpUrlParser.ParserUrl.ParseUrl | lib/http-parser/http_parser.c:2111-2208 | accepts exactly the legal URLs whose converted port is at most 65535 (CONNECT targets: host and port only), with every field at its run, and says exactly when the port is the value of its field |
| HttpUrlParser.FinalFields | lib/http-parser/http_parser.c:2191-2195 | after both loops the fields are those of the parts, and the test for exactly two fields is what it should be except for empty ones |
| TrexSpelling.ItemsSpeltSnoc | lib/utils/trex/trex.c:174-221 | one more member may be appended to a class unless it would read as a range |
| TrexNodes.Frame | lib/utils/trex/trex.c:83-99 | a tree is held by its own stretch of nodes: changes elsewhere, and to the `next` of its root, leave it |
| TrexNodes.LinksStayInside | lib/utils/trex/trex.c:320-343 | what a compiled tree links to lies inside its stretch of the array |
| TrexNodes.ChainInside | lib/utils/trex/trex.c:236-318 | so does every sequence |
| TrexNodes.ItemsExtend | lib/utils/trex/trex.c:195-203 | linking a member behind the last one of a class adds it to the class |
| TrexCompiler.Compiler.NewNode | lib/utils/trex/trex.c:83-99 | appends one node (numbering a capturing group), growing the array when it is full; no other node changes |
| TrexCompiler.Compiler.Expect | lib/utils/trex/trex.c:107-111 | consumes the expected character, and fails exactly when another one stands there |
| TrexCompiler.Compiler.EscapeChar | lib/utils/trex/trex.c:113-127 | reads the upper end of a range as it is spelt, and fails exactly when none is spelt there |
| TrexCompiler.Compiler.CharNode | lib/utils/trex/trex.c:136-173 | reads one character, escape, class or word edge and appends the node for it; on failure nothing spells one |
| TrexCompiler.Compiler.ClassRange | lib/utils/trex/trex.c:186-198 | reads a range of a class; it is accepted only if the number of the node of its lower end is at most its upper end (the code compares that number, not the character), and when it is refused no class is spelt there |
| TrexCompiler.Compiler.ClassMember | lib/utils/trex/trex.c:199-209 | so does any other member |
| TrexCompiler.Compiler.CharClass | lib/utils/trex/trex.c:174-221 | a class that compiles is held by consecutive nodes, and the pattern text consumed spells its members; if it does not compile, no class is spelt there |
| TrexCompiler.Compiler.ParseNumber | lib/utils/trex/trex.c:223-234 | the decimal value of the digits consumed, of which there are at most nine |
| TrexCompiler.Compiler.Count | lib/utils/trex/trex.c:271-303 | a repetition count is what the text consumed spells, truncated to 16 bits; it is refused exactly when none is spelt |
| TrexCompiler.Compiler.Bounds | lib/utils/trex/trex.c:279-298 | the same for counts in braces |
| TrexCompiler.Compiler.Base | lib/utils/trex/trex.c:236-269 | an element without its count: the nodes appended hold a tree that the text consumed spells; refused only when no text from there on spells one |
| TrexCompiler.Compiler.GroupElement | lib/utils/trex/trex.c:241-258 | the same for a group |
| TrexCompiler.Compiler.Element | lib/utils/trex/trex.c:236-318 | the same for an element, its count and the rest of its sequence |
| TrexCompiler.Compiler.List | lib/utils/trex/trex.c:320-343 | the same for alternatives |
| TrexCompiler.Compiler.Compile | lib/utils/trex/trex.c:531-574 | a pattern compiles if and only if some tree spells it; the nodes hold such a tree, which fills the array exactly, and its root is the first node |
| TrexRefused.RestsNext | lib/utils/trex/trex.c:180-209 | whoever spells a class spells, behind the members read so far, the rest of it |
| TrexRefused.NoRange | lib/utils/trex/trex.c:186-195 | behind a member and a dash no class is spelt unless they make a range |
| TrexRefused.NotClosed | lib/utils/trex/trex.c:241-258 | no group is spelt when what follows its contents is no closing parenthesis |
| TrexRefused.CountedFromCount | lib/utils/trex/trex.c:271-303 | no counted element is spelt when its braces do not spell a count |
| TrexRefused.NoUpperPart | lib/utils/trex/trex.c:279-298 | a count whose first number is not followed by a brace, or by a comma and a legal end, is no count |
| TrexRefused.ElementsFromTail | lib/utils/trex/trex.c:305-316 | no sequence is spelt when there is none behind its first element |
| TrexRefused.AltFromRest | lib/utils/trex/trex.c:320-343 | no alternatives are spelt when there are none behind the bar |
| TrexReading.ElementsUnique | lib/utils/trex/trex.c:236-318 | two readings of a sequence that are followed by the same kind of text are the same reading of the same text |
| TrexReading.AltUnique | lib/utils/trex/trex.c:320-343 | so are two readings of alternatives |
| TrexReading.CountUnique | lib/utils/trex/trex.c:271-303 | and two readings of a count |
| TrexReading.PatternsAreUnambiguous | lib/utils/trex/trex.c:531-574 | a pattern has at most one reading, so the tree compiled is the meaning of the pattern |
| TrexTree.MatchSound | lib/utils/trex/trex.c:385-528 | what the matcher consumes for an element is in the language of the element, whatever follows it, and the position never moves backwards |
| TrexTree.RepeatSound | lib/utils/trex/trex.c:390-439 | a repetition consumes as many matches of its body as it counted, one behind the other |
| TrexTree.ChainSound | lib/utils/trex/trex.c:460-490 | the same for sequences |
| TrexTree.AltSound | lib/utils/trex/trex.c:440-490 | the same for alternatives |
| TrexTree.NotComplete | lib/utils/trex/trex.c:440-459 | the converse fails: a group of the alternatives a and ab, followed by c, does not match "abc", although it is in the language |
| TrexTree.AskedTooEarly | lib/utils/trex/trex.c:403-434 | nor are repetitions complete: an optional group behind a repetition is satisfied by nothing, which ends the repetition too early |
| TrexTree.EndIsEaten | lib/utils/trex/trex.c:491-526 | and a dot takes the NUL at the end of the text for a character |
| TrexTree.PlainIsComplete | lib/utils/trex/trex.c:491-526 | without alternatives and repetitions (but with groups) the matcher finds a match exactly when there is one, whatever follows |
| TrexComplete.FirstMeans | lib/utils/trex/trex.c:385-528 | a match that is not empty starts with a character that may start the element; an empty one needs an element that may be empty |
| TrexComplete.LengthMeans | lib/utils/trex/trex.c:385-528 | where all matches of an element have one length, they do |
| TrexComplete.MatchComplete | lib/utils/trex/trex.c:385-528 | where the next character decides every choice, the matcher finds the match of an element that what follows asks for |
| TrexComplete.RepeatComplete | lib/utils/trex/trex.c:390-439 | a repetition then takes as many rounds as are needed: it neither stops early nor eats what belongs to what follows |
| TrexComplete.AltComplete | lib/utils/trex/trex.c:440-490 | and the alternative taken is the right one: nothing follows, or another alternative that matches ends at the same place |
| TrexComplete.WholeTextsAreExact | lib/utils/trex/trex.c:586-596 | such a pattern matches exactly the texts in its language |
| TrexWitnesses.FirstAlternativeCounts | lib/utils/trex/trex.c:440-459 | the failures as patterns and texts: "(a or ab)c", written with a bar, compiles, "abc" is in its language and is rejected |
| TrexWitnesses.OptionalStops | lib/utils/trex/trex.c:403-434 | so is "aac" by "a*(b?)c" |
| TrexWitnesses.DotTakesTheEnd | lib/utils/trex/trex.c:491-526 | and "a" by "a.*" |
| TrexWitnesses.MissesAreRejected | lib/utils/trex/trex.c:586-596 | whatever tree the compiler has found for such a pattern, the matcher rejects the text on it |
| TrexWitnesses.RangesDependOnTheirPlace | lib/utils/trex/trex.c:186-198 | a class of one range behind n letters compiles if and only if its upper end is at least n + 2, whatever its lower end is |
| TrexWitnesses.BackwardRange | lib/utils/trex/trex.c:186-198 | so "[z-a]" compiles, and no character is in the class |
| TrexTables.ClassesMatch | lib/utils/trex/trex.c:344-366 | for each of the nine lower-case class letters, a text of one character matches the class exactly for the code points written out |
| TrexTables.ComplementsMatch | lib/utils/trex/trex.c:344-366 | the seven upper-case letters are the complements |
| TrexTables.ClassIsSpelt | lib/utils/trex/trex.c:129-173 | a backslash and one of the sixteen letters, as a pattern, compiles to the class |
| TrexTables.SetsMatch | lib/utils/trex/trex.c:368-383 | a class in brackets has the characters written there, those between the ends of a range, and those of a class letter, or all others |
| TrexTables.EdgesMatch | lib/utils/trex/trex.c:491-499 | an edge is where a character and the next one differ in being blank, before a first and behind a last one that is not; blanks as code points |
| TrexTables.EscapesAre | lib/utils/trex/trex.c:136-162 | what a backslash and a character mean as a pattern: one of five control characters, a class, an edge, or the character itself |
| TrexTables.LettersAre | lib/utils/trex/trex.c:163-173 | which single characters stand for themselves as a pattern |
| TrexTables.MembersAre | lib/utils/trex/trex.c:113-173 | the same for members of a class and for upper ends of ranges |
| TrexMatcher.GroupRound | lib/utils/trex/trex.c:460-490 | one round of the loop over the nodes of a group, by tree |
| TrexMatcher.ChoiceRound | lib/utils/trex/trex.c:440-459 | one round of either loop of an alternation |
| TrexMatcher.TRex.MatchClass | lib/utils/trex/trex.c:368-383 | walks the members of a class: true exactly when the character is in one of them |
| TrexMatcher.TRex.MatchNode | lib/utils/trex/trex.c:385-528 | the recursive matcher on node arrays, with its look-ahead and its capture records, terminates and finds what the matcher on trees finds |
| TrexMatcher.TRex.MatchGreedy | lib/utils/trex/trex.c:390-439 | the same for repetitions |
| TrexMatcher.TRex.MatchGroup | lib/utils/trex/trex.c:460-490 | the same for groups, whatever the capture state; a capturing group that is next in number records where it has matched and how much, or that it has not |
| TrexMatcher.TRex.MatchOr | lib/utils/trex/trex.c:440-459 | the same for alternations |
| TrexMatcher.TRex.MatchText | lib/utils/trex/trex.c:586-596 | true exactly when the matcher on the compiled tree consumes the whole text; then the whole text is in the language of the tree and is what the first capture holds; and, when the next character decides every choice in the pattern, it is true exactly for the texts in the language |
| TrexMatcher.Compile | lib/utils/trex/trex.c:531-584 | an error and no object exactly when no tree spells the pattern; otherwise an object whose nodes hold a tree that does |
| Crc32.TableStep | lib/utils/hash-library/crc32.cpp:368-369 | shifting a byte out and adding its table entry equals eight bit steps |
| Crc32.LookupIsIterated | lib/utils/hash-library/crc32.cpp:34-55 | table k holds what k+1 zero bytes make of an index |
| Crc32.LookupLinear | lib/utils/hash-library/crc32.cpp:34-55 | the tables are linear over exclusive or |
| Crc32.TableBasis | lib/utils/hash-library/crc32.cpp:56-87 | the eight entries that determine the first table are those of the source |
| Crc32.EightTimesLinear | lib/utils/hash-library/crc32.cpp:34-42 | any number of byte steps is linear |
| Crc32.Spread | lib/utils/hash-library/crc32.cpp:354-362 | the contribution of each byte of a word, by its position |
| Crc32.FourBytes | lib/utils/hash-library/crc32.cpp:354-362 | four byte steps are one word added and four byte steps of zero |
| Crc32.SliceIsIterated | lib/utils/hash-library/crc32.cpp:354-362 | the eight lookups of one pass are the byte steps of both words |
| Crc32.SlicingStep | lib/utils/hash-library/crc32.cpp:344-367 | one pass of the main loop over eight bytes equals 64 steps of the bit-at-a-time CRC |
| Crc32.UpdatesConcatenate | lib/utils/hash-library/crc32.cpp:339-372 | adding two byte sequences one after the other equals adding their concatenation |
| Crc32.CRC32.Add | lib/utils/hash-library/crc32.cpp:339-372 | for every byte sequence the new `m_hash` is the bit-at-a-time reflected CRC-32 (section 8 of RFC 1952) continued from the old one |
| Crc32.AddAll | lib/utils/hash-library/crc32.cpp:339-372 | the same for any sequence of `add` calls |
| Crc32.ShiftIs | lib/utils/hash-library/crc32.cpp:34-42 | one step of the register, on numbers, with the polynomial |
| Crc32.UpdateComplements | lib/utils/hash-library/crc32.cpp:339-379 | the register starts from all ones and is complemented in the end |
| Crc32.CheckValue | lib/utils/hash-library/crc32.cpp:339-379 | the digits from 1 to 9 have the check value 0xCBF43926 |
| Words.PlusRegroup | lib/utils/hash-library/sha256.cpp:101-108 | addition modulo 2^32 is associative, so the order in which the code adds does not matter |
| Words.MajForms | lib/utils/hash-library/sha256.cpp:71-75 | the two forms of the majority function agree |
| Words.SwapIsBigEndian | lib/utils/hash-library/sha256.cpp:47-60 | a word loaded on a little-endian machine and swapped is the big-endian word |
| Words.RotateIsRight | lib/utils/hash-library/sha256.cpp:42-45 | the two shifts of the code are a rotation to the right |
| Words.RotateIsLeft | lib/utils/hash-library/sha1.cpp:56-59 | and those of SHA-1 one to the left |
| Words.PlusValue | lib/utils/hash-library/sha256.cpp:107-130 | addition of words is addition of numbers modulo 2^32 |
| Words.BigEndianValue | lib/utils/hash-library/sha256.cpp:47-60 | the number that four bytes stand for, the first one weighing most |
| Sha256Block.OneStep | lib/utils/hash-library/sha256.cpp:105-111 | one line of the code is one round of section 6.2.2 of FIPS 180-4, including the rewritten Ch and Maj |
| Sha256Block.EightRounds | lib/utils/hash-library/sha256.cpp:105-130 | eight rounds of the standard, unrolled |
| Sha256Block.Extend | lib/utils/hash-library/sha256.cpp:131-136 | the interleaved extension yields the message schedule |
| Sha256Block.ExtensionForms | lib/utils/hash-library/sha256.cpp:131-136 | the rotations and shifts written in the loop are the functions of section 4.1.2 of FIPS 180-4 |
| Sha256Block.EightSteps | lib/utils/hash-library/sha256.cpp:105-130 | eight lines with renamed registers are eight rounds, and the registers are back in place |
| Sha256Block.ProcessBlock | lib/utils/hash-library/sha256.cpp:80-237 | the unrolled compression is the compression function of the standard, for every block and state |
| DigestTables.ConstantsAreRoots | lib/utils/hash-library/sha256.cpp:110-200 | each of the 64 constants holds the first 32 bits of the fractional part of the cube root of its prime |
| DigestTables.InitialAreRoots | lib/utils/hash-library/sha256.cpp:23-37 | the initial values hold those of the square roots of the first eight primes |
| DigestTables.SigmaBits | lib/utils/hash-library/sha256.cpp:62-76 | the four sigma functions bit by bit |
| DigestTables.ChoiceBits | lib/utils/hash-library/sha256.cpp:62-76 | the choice and the vote bit by bit |
| DigestTables.RoundValues | lib/utils/hash-library/sha256.cpp:110-130 | one round in numbers modulo 2^32 |
| DigestTables.MessageValues | lib/utils/hash-library/sha256.cpp:95-104 | the first sixteen words of the schedule in numbers |
| DigestTables.ScheduleValues | lib/utils/hash-library/sha256.cpp:131-136 | and the others as sums of four |
| Sha256.BlocksConcat | lib/utils/hash-library/sha256.cpp:241-281 | hashing whole blocks is a fold: concatenation composes |
| Sha256.LengthBytes | lib/utils/hash-library/sha256.cpp:324-341 | the eight bytes stored are those of the length in bits, most significant first |
| Sha256.PaddedLength | lib/utils/hash-library/sha256.cpp:287-306 | the rule of the code pads to 56 modulo 64, always with room for the first bit |
| Sha256.SamePadding | lib/utils/hash-library/sha256.cpp:287-341 | padding depends only on the bytes kept, and the length stored is right modulo 2^64 although the counter wraps |
| Sha256.PaddedBlocks | lib/utils/hash-library/sha256.cpp:342-346 | the last one or two blocks compressed are the end of the padded message (section 5.1.1 of FIPS 180-4) |
| Sha256.SHA256.constructor | lib/utils/hash-library/sha256.cpp:16-37 | nothing added |
| Sha256.SHA256.Reset | lib/utils/hash-library/sha256.cpp:23-37 | nothing added |
| Sha256.SHA256.Add | lib/utils/hash-library/sha256.cpp:241-281 | after any call the object stands for everything added so far: the hash is that of the full blocks, the buffer is the rest |
| Sha256.SHA256.Pad | lib/utils/hash-library/sha256.cpp:306-341 | fills the buffer and, if needed, the extra block with the padding, without touching the bytes kept |
| Sha256.SHA256.ProcessBuffer | lib/utils/hash-library/sha256.cpp:285-347 | compresses exactly the padded message, so that the hash is the digest of everything added; the bytes kept are not overwritten |
| Sha256.SHA256.GetHash | lib/utils/hash-library/sha256.cpp:351-386 | the digest of everything added; the object stands for the same message afterwards, so later calls of `add` continue correctly |
| Sha1Block.MixForms | lib/utils/hash-library/sha1.cpp:40-53 | the rewritten functions of the four rounds are those of section 4.1.1 of FIPS 180-4 |
| Sha1Block.OneStep | lib/utils/hash-library/sha1.cpp:106-111 | one line of the code is one round of the standard |
| Sha1Block.FiveSteps | lib/utils/hash-library/sha1.cpp:103-112 | five lines with renamed registers are five rounds |
| Sha1Block.TwentySteps | lib/utils/hash-library/sha1.cpp:103-143 | each of the four loops is twenty rounds |
| Sha1Block.ProcessBlock | lib/utils/hash-library/sha1.cpp:78-152 | the compression is that of section 6.1.2 of FIPS 180-4, for every block and state |
| DigestTables.Sha1ConstantsAreRoots | lib/utils/hash-library/sha1.cpp:103-143 | the four constants are the square roots of 2, 3, 5 and 10, scaled by 2^30 |
| DigestTables.MixBits | lib/utils/hash-library/sha1.cpp:39-54 | the mix functions bit by bit |
| DigestTables.Sha1ScheduleBits | lib/utils/hash-library/sha1.cpp:98-101 | the extension of the schedule bit by bit |
| DigestTables.Sha1RoundValues | lib/utils/hash-library/sha1.cpp:103-112 | one round in numbers and rotated bits |
| JsonText.CharRoundTrip | lib/utils/jsonxx/jsonxx.cc:392-434 | a character that survives is printed so that it is read back as itself |
| JsonText.UnicodeEscape | lib/utils/jsonxx/jsonxx.cc:117-127 | an escape written in hexadecimal is read in decimal, up to the first digit that is not decimal |
| JsonText.WideEscape | lib/utils/jsonxx/jsonxx.cc:422-429 | bytes from 0x80 on are printed as eight hexadecimal digits and read as the last four of them |
| JsonText.CharIsLost | lib/utils/jsonxx/jsonxx.cc:392-434 | a character outside that set is not read back |
| JsonText.StringRoundTrip | lib/utils/jsonxx/jsonxx.cc:78-144 | a printed string is read back as itself if and only if all its characters survive (0x00-0x0A, 0x0C, 0x0D, 0x20-0x7F) |
| JsonTables.EscapesRead | lib/utils/jsonxx/jsonxx.cc:96-136 | what a backslash and any character but u mean, between quotes of either kind, as code points |
| JsonTables.CharactersRead | lib/utils/jsonxx/jsonxx.cc:91-139 | any other character stands for itself, and the delimiter ends the string |
| JsonTables.UnicodeReads | lib/utils/jsonxx/jsonxx.cc:117-127 | an escape with four decimal digits is the character with that decimal number modulo 256 |
| JsonTables.UnicodePrefixReads | lib/utils/jsonxx/jsonxx.cc:117-127 | digits count up to the first character that is none, and without any the escape stands for nothing |
| JsonTables.UnicodeSignReads | lib/utils/jsonxx/jsonxx.cc:117-127 | a sign counts, and a negative number is taken modulo 256 |
| JsonTables.UnicodeSpaceReads | lib/utils/jsonxx/jsonxx.cc:117-127 | white space before the number is passed over |
| JsonTables.UnicodeExample | lib/utils/jsonxx/jsonxx.cc:117-127 | so the escape for an A by its hexadecimal code is read as a closing parenthesis |
| JsonTables.EscapesPrinted | lib/utils/jsonxx/jsonxx.cc:392-434 | what is printed for each of the 256 characters, written out |
| JsonText.IntRoundTrip | lib/utils/jsonxx/jsonxx.cc:146-164 | a printed integer is read back as itself when no more of a number follows |
| JsonTables.NoLeadingZero | lib/utils/jsonxx/jsonxx.cc:438-465 | integers are printed without leading zeros |
| JsonTables.DecimalsRead | lib/utils/jsonxx/jsonxx.cc:146-174 | a number with or without a sign and a decimal point is its whole part and its tenths, hundredths and so on |
| JsonTables.ExponentsRead | lib/utils/jsonxx/jsonxx.cc:146-174 | with an exponent of either case and sign it is multiplied or divided by that power of ten |
| JsonTables.TwentyFive | lib/utils/jsonxx/jsonxx.cc:146-174 | "+2.50e+1" is 25 |
| JsonTables.FiveThousandths | lib/utils/jsonxx/jsonxx.cc:146-174 | ".5E-2" is 0.005 |
| JsonTables.SampleIsPrinted | lib/utils/jsonxx/jsonxx.cc:438-496 | an object with an array of null, true and -12 is one of the values that come back, and how it is printed |
| JsonText.PrintStarts | lib/utils/jsonxx/jsonxx.cc:438-465 | the first character of a printed value tells its kind |
| JsonParser.Input.ParseComment | lib/utils/jsonxx/jsonxx.cc:206-239 | consumes a whole comment to the end of its line, and nothing when no comment starts: a slash that is followed by something else is put back; terminates on every input |
| JsonParser.Input.TrimLine | lib/utils/jsonxx/jsonxx.cc:206-239 | a comment ends at the end of its line or of the text |
| JsonParser.Input.PutBack | lib/utils/jsonxx/jsonxx.cc:56-76 | characters that have been read are put back, last one first |
| JsonParser.Input.Match | lib/utils/jsonxx/jsonxx.cc:56-76 | consumes the pattern behind white space and comments; if it breaks off at another character, everything but the white space is put back; if the text ends inside the pattern, the match succeeds if and only if one character is missing and it is the same as the last one there is, as in "nul" |
| JsonParser.Input.MatchToken | lib/utils/jsonxx/jsonxx.cc:56-76 | the same for the loop behind the white space |
| JsonParser.Input.ParseString | lib/utils/jsonxx/jsonxx.cc:78-144 | reads a string between double or single quotes, with all escapes, exactly when it is closed, and stops right behind it; consumes nothing but white space when there is no quote |
| JsonParser.Input.ParseNumber | lib/utils/jsonxx/jsonxx.cc:146-174 | reads the longest number, or leaves the stream alone |
| JsonParser.Input.ParseBool | lib/utils/jsonxx/jsonxx.cc:176-186 | reads true or false |
| JsonParser.Input.ParseNull | lib/utils/jsonxx/jsonxx.cc:188-196 | reads null; a comma is read as null, too, and left where it is, and so is "nul" at the end of the text |
| JsonParser.Input.ParseValue | lib/utils/jsonxx/jsonxx.cc:315-359 | terminates on every input; whenever the stream is at a value, in any spelling (white space, comments, both kinds of quotes, members in any order), returns that value and stops right behind it |
| JsonParser.Input.ParseArray | lib/utils/jsonxx/jsonxx.cc:367-390 | the same for arrays |
| JsonParser.Input.ParseObject | lib/utils/jsonxx/jsonxx.cc:252-288 | the same for objects, whose members are inserted in key order, the last one of each key counting |
| JsonParser.Input.ParseMember | lib/utils/jsonxx/jsonxx.cc:252-288 | the same for a key, a colon and a value |
| JsonGrammar.ReadsStarts | lib/utils/jsonxx/jsonxx.cc:315-359 | the first character of a value behind white space and comments tells its kind, so that exactly the right alternative recognises it |
| JsonPrinter.StreamString | lib/utils/jsonxx/jsonxx.cc:392-434 | appends the quoted string |
| JsonPrinter.StreamValue | lib/utils/jsonxx/jsonxx.cc:438-465 | appends the printed form of the value |
| JsonPrinter.StreamArray | lib/utils/jsonxx/jsonxx.cc:467-480 | appends the items with separators between them, none behind the last |
| JsonPrinter.StreamObject | lib/utils/jsonxx/jsonxx.cc:482-496 | appends the members with separators between them |
| JsonPrinter.PrintReads | lib/utils/jsonxx/jsonxx.cc:392-496 | what the printer writes is a spelling of the value it prints, whatever follows it |
| JsonPrinter.RoundTrip | lib/utils/jsonxx/jsonxx.cc:315-496 | printing and then parsing gives back the value and consumes exactly its text, for every value of nulls, booleans, arrays, objects, FLOAT_ integers below 10^6 and strings and keys of surviving characters |
| MapClone.Attach | lib/fields/extended/stl/cjson_std_map_field.cpp:141-220 | a node linked to two copied subtrees holds the branch, and both children point back to it |
| MapClone.CopyNode | lib/fields/extended/stl/cjson_std_map_field.cpp:141-220 | for every tree: all nodes of the copy are fresh, it has the same shape, colours and entries, every child points to its copied parent, and first and last become their copies |
| MapClone.AlikeIsAsGood | lib/fields/extended/stl/cjson_std_map_field.cpp:141-220 | so in-order sequence (hence search order), black height, root colour and size carry over |
| MapClone.BlackHeightMeans | lib/fields/extended/stl/cjson_std_map_field.cpp:141-220 | the black height is the number of black nodes on every way down, with no red node below a red one |
| MapClone.EndsAreEnds | lib/fields/extended/stl/cjson_std_map_field.cpp:160-215 | leftmost and rightmost are the nodes of the first and the last entry |
| MapClone.EndsMove | lib/fields/extended/stl/cjson_std_map_field.cpp:160-215 | the copies of the leftmost and rightmost nodes are the leftmost and rightmost nodes of the copy |
| MapClone.Map.CopyFrom | lib/fields/extended/stl/cjson_std_map_field.cpp:265-275 | the header of the target then heads the copy, the source map is unchanged, and the target is not a map as the library builds it |
| MapClone.CopyIsNoLibraryMap | lib/fields/extended/stl/cjson_std_map_field.cpp:265-275 | but it is never a map as the library builds it: the root has no parent, and an empty copy has its ends in the source |
| MapClone.ReadTree | lib/fields/extended/stl/cjson_std_map_field.cpp:65-78 | appends the entries in pre-order |
| MapClone.PreOrderPlaces | lib/fields/extended/stl/cjson_std_map_field.cpp:65-78 | an entry comes before those below it, and what is on the left before what is on the right |
| MapClone.EveryEntryOnce | lib/fields/extended/stl/cjson_std_map_field.cpp:65-78 | which lists every entry exactly once, and the copy like its source |
| StdMap.PutIsUpdate | lib/databases/wrappers/sql/sql_class_wrapper.cpp:31-62 | assignment to a std::map keeps it sorted and is an update of the mapping |
| StdMap.LessIsTotal | lib/databases/wrappers/sql/sql_class_wrapper.cpp:31-62 | the order of keys is total |
| StdMap.LessIsLexicographic | lib/databases/wrappers/sql/sql_class_wrapper.cpp:31-62 | keys are ordered by the first characters that differ, and a beginning comes before what goes on |
| SqlSchema.DifferenceIsExact | lib/databases/wrappers/sql/sql_field_wrapper.cpp:22-47 | dropping and adding the two differences makes one description the other, and no smaller sets do |
| SqlSchema.Cmp | lib/databases/wrappers/sql/sql_field_wrapper.cpp:22-47 | `cmp` computes exactly these differences |
| SqlInsert.AddPlain | lib/databases/wrappers/sql/sql_class_wrapper.cpp:43-59 | a plain field adds its column behind those of the fields before it |
| SqlInsert.AddNested | lib/databases/wrappers/sql/sql_class_wrapper.cpp:43-59 | a nested class adds a data and a hash column, each behind those of its kind |
| SqlInsert.ClassWrapper.MetaDescription | lib/databases/wrappers/sql/sql_class_wrapper.cpp:31-62 | the description is colu_, data_, hash_ columns by field, then the id |
| SqlInsert.ClassWrapper.InsertStatement | lib/databases/wrappers/sql/sql_class_wrapper.cpp:204-247 | every column but the id is listed once, with one question mark each and commas exactly between them |
| SqlInsert.ClassWrapper.Store | lib/databases/wrappers/sql/sql_class_wrapper.cpp:289-353 | never runs past the parameters, and binds every field once, in the order of the columns that name it |
| SqlInsert.Statement.BindBlob | lib/databases/drivers/sql/mysql/mysql_statement.cpp:79-117 | binds data, then hash, and moves the cursor by two |
| SqlInsert.Statement.BindPlain | lib/databases/drivers/sql/mysql/mysql_statement.cpp:119-162 | binds one parameter and moves the cursor by one |
| SqlInsert.Statement.Reset | lib/databases/drivers/sql/mysql/mysql_statement.cpp:66-75 | moves the cursor back to the first parameter |
| SqlInsert.KeysOfDescription | lib/databases/wrappers/sql/sql_class_wrapper.cpp:204-247 | the columns of the description are the listed ones and then the id |
| SqlInsert.EverythingIsBound | lib/databases/wrappers/sql/sql_class_wrapper.cpp:289-353 | what the loop over the description binds, field by field |
| SqlInsert.ParametersAlign | lib/databases/wrappers/sql/sql_class_wrapper.cpp:204-353 | the k-th bound parameter belongs to the k-th listed column for all k if and only if at most one field is a nested class |
| SqlExamples.MixedDescription | lib/databases/wrappers/sql/sql_class_wrapper.cpp:31-62 | a class with a plain and a nested field: its four columns and their types |
| SqlExamples.MixedStatements | lib/databases/wrappers/sql/sql_class_wrapper.cpp:204-353 | the text of the column list and of the marks of its INSERT, the parameters bound to it, and its unique key |
| SqlExamples.NestedDisagree | lib/databases/wrappers/sql/sql_class_wrapper.cpp:204-353 | with two nested fields the columns come by kind and the parameters by field |
| SqlMigration.UniqueOfDescription | lib/databases/wrappers/sql/sql_class_wrapper.cpp:86-94 | the unique key has the colu_ and hash_ columns, and is non-empty if and only if the class has fields |
| SqlMigration.UniqueColumns | lib/databases/wrappers/sql/sql_class_wrapper.cpp:86-94 | collects exactly these |
| SqlMigration.DropColumns | lib/databases/wrappers/sql/sql_class_wrapper.cpp:142-152 | every DROP names a column that exists, and afterwards exactly these are gone |
| SqlMigration.AddColumns | lib/databases/wrappers/sql/sql_class_wrapper.cpp:155-165 | every ADD names a column that does not exist, and afterwards exactly these are there |
| SqlMigration.SqlCreate | lib/databases/wrappers/sql/sql_class_wrapper.cpp:65-196 | the statements are all accepted if and only if the class has fields and the previous version, if there was one, had a unique key to drop; with those that are refused skipped, the table has exactly the columns of the new description, and a unique key if and only if there are fields |
| SqlMigration.Driver.Prepare | lib/databases/wrappers/sql/sql_class_wrapper.cpp:249-283 | table, stored description and current description agree afterwards, whether or not the class has fields |
| SqlMigration.Deploy | lib/databases/wrappers/sql/sql_class_wrapper.cpp:249-283 | over any sequence of versions of a class, with or without fields, the table is always that of the last one: its columns, and its unique key or, without fields, none |
| VtableSlots.PutAllIsOverriding | lib/cjson_abi_struct.h:178-208 | adding the methods of a class puts each overrider into the slot of what it overrides, and appends the others in the order of declaration (section 2.5.2 of the Itanium C++ ABI) |
| VtableSlots.PutAllDeclares | lib/cjson_abi_struct.h:178-208 | the list has exactly the signatures of both |
| VtableSlots.FunctionsOnce | lib/cjson_abi_struct.h:503-513 | no signature occurs twice in a function list |
| VtableSlots.SlotsAreStable | lib/cjson_abi_struct.h:503-513 | every slot of a class keeps its index and signature in all classes down its primary chain |
| VtableSlots.SlotsHoldFinalOverriders | lib/cjson_abi_struct.h:503-513 | every slot holds the final overrider: the method of the last class of the chain that declares its signature |
| VtableSlots.EveryMethodHasASlot | lib/cjson_abi_struct.h:503-513 | and every method declared along the chain has a slot |
| VtableLayout.ChainsNest | lib/cjson_abi_struct.h:282-297 | the primary chain of a class begins with that of each class in it |
| VtableLayout.AddressesAreConsecutive | lib/cjson_abi_struct.h:414-576 | all words of a layout have consecutive addresses |
| VtableLayout.EntriesAreTables | lib/cjson_abi_struct.h:496-518 | whatever class has an entry point is entered at the functions of a table of that class |
| VtableLayout.TablesAreMain | lib/cjson_abi_struct.h:414-576 | every table laid out is the main table of a class of the hierarchy |
| VtableLayout.SecondariesKeepTheirTables | lib/cjson_abi_struct.h:565-576 | a secondary base brings all its tables along as they are |
| VtableLayout.CallsAreBound | lib/cjson_abi_struct.h:414-576 | a call through the entry point of the class laid out, at the slot that any class of its primary chain gave a method, reaches the final overrider of that method |
| VtableLayout.CallsReach | lib/cjson_abi_struct.h:414-576 | a call through the entry point of any class that has a table reaches the function that the chain of that class puts into the slot |
| VtableLayout.TablesAreOfBases | lib/cjson_abi_struct.h:565-576 | every table laid out is that of a base, reached from the class along some path of chains and secondary bases |
| VtableLayout.CallsOnBasesAreBound | lib/cjson_abi_struct.h:565-576 | a call through the table of such a base reaches the final overrider if and only if the classes that derive from the base along the path declare nothing else for its signature |
| VtableLayout.BaseTablesAreRight | lib/cjson_abi_struct.h:565-576 | the whole table of a base is right if and only if no class that derives from the base declares a signature of it |
| VtableLayout.OverriderIsMissed | lib/cjson_abi_struct.h:565-576 | it is not always: with C deriving from A and B and overriding a function of B, the table of B still has the function of B |
| VtableLayout.LeafTable | lib/cjson_abi_struct.h:423-435 | a class without bases lays out its methods as declared, which is the general rule |
| VtableExamples.SlotsOfC | lib/cjson_abi_struct.h:178-208 | a class with two bases, an overrider and an overload: the overrider takes its slot, the overload a new one |
| VtableExamples.TablesOfC | lib/cjson_abi_struct.h:414-576 | its main table is that of the first base, extended, and the table of the other base comes behind it |
| VtableExamples.LayoutOfC | lib/cjson_abi_struct.h:414-576 | its seven words with their addresses, and its two entry points |
| VtableBuilder.FunctionList.Add | lib/cjson_abi_struct.h:178-193 | replaces the first function with the same signature, or appends |
| VtableBuilder.FunctionList.AddAll | lib/cjson_abi_struct.h:195-208 | the same for all methods of a class |
| VtableBuilder.Bases.FindPrimaryChain | lib/cjson_abi_struct.h:282-297 | collects the primary chain, names and classes |
| VtableBuilder.Bases.FindSecondary | lib/cjson_abi_struct.h:329-372 | collects the other bases of the chain and of the class, looking classes up by name |
| VtableBuilder.Layout.AddTable | lib/cjson_abi_struct.h:496-518 | two words, the entry point, the functions |
| VtableBuilder.Layout.Build | lib/cjson_abi_struct.h:414-576 | appends exactly the tables of the hierarchy, records their entry points, and moves the address behind them |

## Left out

HTTP:
- HttpNames.ContentLengthIsExact: says which values are stored exactly; that every larger value is rejected is false of the code, and `HttpNames.ContentLengthIsModular` says which are.
- HttpChunked.ChunkSizeIsExact: the same, with `HttpChunked.ChunkSizeIsModular`.
- HttpPipeline.PipelineIsReceived: request lines have single spaces and a version, and no empty lines stand before them; the general theorems on runs cover the other spellings.
- HttpUrlParser.ParserUrl.ParseUrl: buffers of up to 65535 bytes, since offsets and lengths have 16 bits; unset entries of `field_data` are not represented.
- Responses, `HTTP_BOTH`, non-strict mode, pausing, callbacks that return non-zero, `F_SKIPBODY`, and bytes after an upgrade: more cases of the same kind.
- `HeadersComplete` records what the callback can read off the parser; the server's own callbacks are not modelled.

T-Rex:
- TrexMatcher.TRex.MatchText: completeness is stated for patterns whose choices the next character decides, which is sufficient and not necessary; of all patterns it is false (`NotComplete`). Which matches the captures of inner groups hold in the end is not specified: they are numbered as they are first tried, whether or not that try is part of the match.
- TrexCompiler.Compiler.Compile: patterns are ASCII without NUL.
- `trex_search`, `trex_searchrange`, and the overflow of `_nallocated`.

Digests:
- Sha256.SHA256.Add: the counter of bytes wraps at 64 bits as in the source; the eight textual groups of eight lines are one method called eight times.
- Crc32.TableBasis: compares the eight entries that determine the first table; the other literal entries stand for their generator, and big-endian branches are left out.
- Streaming of SHA-1, whose `add`, `processBuffer` and `getHash` have the text of SHA-256's, and MD5, which has that text except that the length is stored little-endian; Keccak.
- Digests are register values; formatting them in hexadecimal is left out.

JSON:
- JsonPrinter.RoundTrip: numbers are integers below 10^6, which print without an exponent; rounding and overflow of other floating-point numbers are left out.
- JsonParser.Input.ParseValue: what is returned for text that is no value of the grammar, such as one with commas missing or to spare, is not specified beyond termination.
- XML output, `tag()` and `json()`, ownership of `Value`, and debug output.

Copies of std::map:
- MapClone.CopyNode: keys and values are copied as values; memory layout and `getAlignedSize` are left out.

SQL:
- SqlInsert.ClassWrapper.Store: fields are plain columns or nested classes; pointer fields are left out.
- SqlInsert.Statement.Reset: moves the cursor back; the heap blocks behind bound parameters are left out.
- SqlMigration.Driver.Prepare: statements are a datatype; SQL text, the 2048-byte buffers and transport errors are left out.
- Other tables of the database and other drivers.

Virtual tables:
- VtableBuilder.Layout.Build: hierarchies without virtual inheritance, in which one name is one class and no class declares a signature twice.

Everything else in the repository (sockets, threads, dynamic loading, Xerces decoding, symbol reading, the stubber's text
generation, property files, cookies, the ETag cache) is input and output or has no property of this kind.
