# apple-music-api, modelled in Dafny

This project models three pieces of the `applemusic` package, a client for the
Apple Music API, and proves properties of them.

- **The CENC decryptor** (`applemusic/decrypt.py`, a port of pymp4decrypt). It
  reads the top-level boxes of a fragmented ISO base-media file (ISO/IEC 14496-12)
  and does the following:
  - `fix_headers` rewrites every sample-entry format that contains `enc` to `mp4a`.
  - It removes the `sinf` children it visits from the first entry of every `stsd`
    box. It removes them from the list it is iterating over, so a `sinf` right
    after a removed one is skipped and survives.
  - It remembers the sample size of the last `stsz` box seen.
  - Each `moof` queues its `senc` and `trun` boxes in two FIFO queues.
  - Each `mdat` pops one box from each queue and rebuilds its payload sample by
    sample. This is the `cenc` scheme of section 10.1 of ISO/IEC 23001-7: AES in
    counter mode (section 6.5 of NIST SP 800-38A), with a fresh cipher per sample
    whose counter block is the sample's IV followed by a 64-bit block counter
    starting at 0. Clear sub-sample spans are copied. Cipher spans are transformed
    with one keystream that continues from span to span.
  - The rewritten boxes are written out in input order.
- **Lyrics** (`applemusic/models/lyrics.py`):
  - `clean` is `re.findall` of `(?:<p.*?>)(.*?)(?:</p>)` over the TTML, joined with
    newlines.
  - `str(lyrics)` is `clean`.
- **API errors** (`applemusic/errors.py`):
  - `AppleMusicAPIException` fills its fields from the error object, with defaults.
  - Its `str` is the title, followed by `": "` and the detail unless the detail
    is the default one.

Files:

- `wrappers.dfy` holds `Option`, `Result` and `Min`.
- `ctr.dfy` holds counter mode over an abstract block cipher, and the stateful
  cipher object.
- `boxes.dfy` holds the box tree, `BoxUtil.find`, `fix_headers` and the `sinf`
  removal.
- `samples.dfy` holds the byte reader and the per-sample and per-`mdat` decryption.
- `decrypt.dfy` holds the box loop and its queues.
- `lyrics.dfy` holds `clean` and its regular expression.
- `errors.dfy` holds the exception.

How the model is specified:

- The decryptor is imperative, as the source is. Each loop is a method, and each
  method is proved equal to a specification function: `Decrypt` to
  `DecryptedBoxes`, `DecryptMdat` to `MdatPayload`, `DecryptSpans` to `SpansOut`,
  `StripSinf` to `SinfStripped`, `FixHeaders` to `HeadersFixed`.
- The properties are lemmas about those functions.
- The byte cursor (`BytesIO`) and the cipher object are classes with a mutable
  field.
- The boxes are values. An update in place of a box is a rebuilt box.

The box loop is specified as a state machine:

- `Run` is the state after `n` boxes.
- `StateAt` states the state in closed form: the sample size is that of the last
  `stsz` seen. Each queue is everything the `moof` boxes so far queued, less one
  box per `mdat` so far.
- `DecryptedBox` draws the consequence. Box `k` is written as rewritten, unless it
  is an `mdat`. The `mdat` after `i` earlier ones is decrypted with the `i`-th
  queued `senc` and `trun` boxes.

## Model

| member | source | states |
|---|---|---|
| Ctr.Keystream | applemusic/decrypt.py:64-68 | the keystream from an offset has exactly as many bytes as asked for |
| Ctr.KeystreamPrefix | applemusic/decrypt.py:64-68 | a shorter keystream drawn from the same offset is a prefix of a longer one |
| Ctr.Crypt | applemusic/decrypt.py:72 | the counter-mode transformation XORs the data with the keystream drawn from the offset, and keeps its length |
| Ctr.CryptInvolution | applemusic/decrypt.py:72 | applying the transformation twice with the same key, IV and offset restores the data: decryption is encryption |
| Ctr.CryptSplit | applemusic/decrypt.py:79-86 | transforming two pieces in turn, the keystream continuing, equals transforming their concatenation |
| Ctr.NewCipherFault | applemusic/decrypt.py:64-68 | `AES.new` accepts exactly a key of 16, 24 or 32 bytes together with an 8-byte IV (IV plus 64-bit counter fill one block) |
| Ctr.Be64 | applemusic/decrypt.py:64-66 | definition: the 64-bit big-endian counter field of `Counter.new(64, ...)`, always eight bytes; its properties are those of `Ctr.Keystream` and `Ctr.CryptSplit` |
| Ctr.CounterBlock | applemusic/decrypt.py:64-66 | definition: block number `j` is the sample's IV as prefix followed by `j` as the counter, which starts at `initial_value=0`; `Ctr.NewCipherFault` states when such a block is refused |
| Ctr.KeystreamByte | applemusic/decrypt.py:64-68 | definition: keystream byte `i` is byte `i mod 16` of the block function applied to counter block `i / 16`; its properties are those of `Ctr.Keystream` and `Ctr.KeystreamPrefix` |
| Ctr.CtrCipher.constructor | applemusic/decrypt.py:64-68 | a new cipher keeps its key and IV and has used no keystream |
| Ctr.CtrCipher.Decrypt | applemusic/decrypt.py:72 | each call transforms its data with the keystream continuing where the previous call stopped, and advances it by the data's length |
| Boxes.Mp4aIsPlain | applemusic/decrypt.py:17-21 | the replacement format `mp4a` does not itself contain `enc` |
| Boxes.Contains | applemusic/decrypt.py:20 | definition: `pattern in s` on byte strings, true when the pattern occurs at some offset; `Boxes.Mp4aIsPlain` and `Boxes.NoEncryptedFormatRemains` carry its properties |
| Boxes.FormatFixed | applemusic/decrypt.py:20-21 | definition: an entry whose format contains `enc` gets the format `mp4a`, and any other entry is kept; `Boxes.FixEntries`, `Boxes.NoEncryptedFormatRemains` and `Boxes.HeadersFixedIdempotent` carry its properties |
| Boxes.Find | applemusic/decrypt.py:18 | every box found for a type has that type |
| Boxes.FindAllPointwise | applemusic/decrypt.py:18 | siblings with the same finds, one by one, have the same finds |
| Boxes.HeadersFixed | applemusic/decrypt.py:11-22 | the tree after `fix_headers`: every entry of every stsd found has its format fixed (its properties are the lemmas below) |
| Boxes.FixEntries | applemusic/decrypt.py:19-21 | each entry whose format contains `enc` gets format `mp4a`; every other format, every entry's children and the number of entries are unchanged |
| Boxes.FixHeaders | applemusic/decrypt.py:11-22 | `fix_headers` applied to every stsd below the box gives `HeadersFixed` |
| Boxes.HeadersFixedStsds | applemusic/decrypt.py:18-21 | after `fix_headers` the stsd boxes found are the original ones, in order, with their entries fixed |
| Boxes.NoEncryptedFormatRemains | applemusic/decrypt.py:17-21 | after `fix_headers` no entry of any stsd found has a format containing `enc` |
| Boxes.HeadersFixedKeepsFinds | applemusic/decrypt.py:11-22 | `fix_headers` leaves every search for a type other than stsd unchanged |
| Boxes.HeadersFixedIdempotent | applemusic/decrypt.py:11-22 | fixing headers twice is fixing them once |
| Boxes.HeadersFixedErased | applemusic/decrypt.py:11-22 | `fix_headers` changes nothing but the contents of stsd boxes: every other box, every container's kind and the tree's shape stay as they were |
| Boxes.SinfStripped | applemusic/decrypt.py:47-49 | removing during iteration never lengthens the children |
| Boxes.SinfStrippedKeepsOthers | applemusic/decrypt.py:47-49 | every child other than `sinf` survives, in order |
| Boxes.SinfStrippedComplete | applemusic/decrypt.py:47-49 | when no two `sinf` children are adjacent, all `sinf` children are removed |
| Boxes.SinfStrippedSkipsFollower | applemusic/decrypt.py:47-49 | a `sinf` right after a removed `sinf` is skipped by the iteration and survives |
| Boxes.StripSinf | applemusic/decrypt.py:47-49 | the loop that removes from the list it iterates over computes `SinfStripped` |
| Boxes.ProtectionStripped | applemusic/decrypt.py:45-49 | the tree after the stsd loop: the first entry of each stsd found loses the `sinf` children the loop visits; an stsd without entries raises (its properties are the lemmas below) |
| Boxes.ProtectionStrippedPointwise | applemusic/decrypt.py:45-49 | siblings stripped one by one without error make the siblings stripped |
| Boxes.ProtectionStrippedAllFails | applemusic/decrypt.py:45-46 | the first sibling whose stripping raises makes the whole stripping raise its error |
| Boxes.StripProtection | applemusic/decrypt.py:45-49 | the loop over the stsd boxes computes `ProtectionStripped` |
| Boxes.ProtectionStrippedFails | applemusic/decrypt.py:45-46 | stripping raises exactly when some stsd found has no entries, and then with `NoSampleEntry` (the `IndexError` of `entries[0]`) |
| Boxes.ProtectionStrippedKeepsFinds | applemusic/decrypt.py:45-49 | stripping leaves every search for a type other than stsd unchanged |
| Boxes.ProtectionStrippedStsds | applemusic/decrypt.py:45-49 | after stripping, the stsd boxes found are the original ones, in order, each with the `sinf` children of its first entry removed and its other entries unchanged |
| Boxes.ProtectionStrippedErased | applemusic/decrypt.py:45-49 | removing `sinf` changes nothing but the contents of stsd boxes: every other box, every container's kind and the tree's shape stay as they were |
| Boxes.ParsedTypes | applemusic/decrypt.py:18-54 | for a box of a tree the box library produces, the box is an `mdat` exactly when its type is `mdat`, and it has the structure of a searched type exactly when its type is that type |
| Boxes.FindByType | applemusic/decrypt.py:18 | the library's search: a box whose type matches is yielded, and the children of a container that does not match are searched in order |
| Boxes.ParsedFind | applemusic/decrypt.py:18-53 | in a tree the box library produces, the search the model uses returns exactly the boxes the library's type-comparing search yields, in the same order |
| Boxes.ParsedFindAll | applemusic/decrypt.py:52-53 | the same agreement for a sequence of parsed boxes searched one after another |
| Samples.ByteReader.constructor | applemusic/decrypt.py:60 | a new reader holds the payload with its cursor at 0 |
| Samples.ByteReader.Read | applemusic/decrypt.py:71 | `read(n)` returns the next `n` bytes, or all that are left, and moves the cursor past them |
| Samples.ClearStop | applemusic/decrypt.py:80-82 | the clear bytes of a pair stop within the buffer, after its start |
| Samples.PairStop | applemusic/decrypt.py:83-85 | the cipher bytes of a pair stop within the buffer, after its clear bytes |
| Samples.SpanStart | applemusic/decrypt.py:79-86 | the cursor at every pair lies between the sample's start and the end of the buffer |
| Samples.SpanStartCovered | applemusic/decrypt.py:79-86 | after `k` pairs the cursor has advanced by their total size, or stopped at the end of the buffer |
| Samples.SpansOutLength | applemusic/decrypt.py:79-86 | the sub-sample output has exactly as many bytes as the cursor advanced |
| Samples.SpansOut | applemusic/decrypt.py:79-86 | the output of the first `k` pairs: each clear span copied, each cipher span transformed with the keystream continuing from the previous one (its properties are the lemmas around it) |
| Samples.CipherUsedCountsCipherBytes | applemusic/decrypt.py:83-86 | the keystream offset at a pair is the number of cipher bytes read before it in the same sample |
| Samples.SubsamplesFormOneStream | applemusic/decrypt.py:79-86 | the cipher spans of a sample, transformed span by span, equal their concatenation transformed from keystream byte 0 |
| Samples.StreamContinues | applemusic/decrypt.py:83-86 | one more cipher span continues the stream of the spans before it |
| Samples.SampleOut | applemusic/decrypt.py:64-86 | a sample's output never reaches past the end of the payload |
| Samples.SampleOutSucceeds | applemusic/decrypt.py:64-71 | a sample fails exactly when `AES.new` refuses the key or IV, or no `stsz` sample size is bound (the `NameError`) |
| Samples.FixedSampleSizeWins | applemusic/decrypt.py:70-72 | a nonzero `stsz` size wins: that many bytes (or what is left) are read and all transformed from keystream byte 0 with the sample's IV, whatever the pairs and the `trun` size |
| Samples.UnsplitSampleUsesTrunSize | applemusic/decrypt.py:73-77 | otherwise a sample without pairs reads its `trun` size and transforms all of it from keystream byte 0 |
| Samples.SplitSampleUsesPairs | applemusic/decrypt.py:78-86 | otherwise the sample is its pairs: clear spans copied, cipher spans transformed with a keystream continuing across them |
| Samples.SampleOutConsumes | applemusic/decrypt.py:70-86 | a sample's output is exactly as long as what it read: its layout's total size, or what was left |
| Samples.SampleLayout | applemusic/decrypt.py:70-78 | definition: a nonzero `stsz` size wins as one cipher span, then the `trun` size as one cipher span when the sample has no pairs, then the pairs themselves; `Samples.FixedSampleSizeWins`, `Samples.UnsplitSampleUsesTrunSize` and `Samples.SplitSampleUsesPairs` carry its properties |
| Samples.WholeSpan | applemusic/decrypt.py:71-77 | a single cipher span is read up to the end of the buffer and transformed whole |
| Samples.Zip | applemusic/decrypt.py:61-63 | `zip` yields as many pairs as the shorter list has |
| Samples.ZipPairs | applemusic/decrypt.py:61-63 | `zip` pairs the entries by position |
| Samples.SamplesOut | applemusic/decrypt.py:58-87 | the payload rebuilt from the first samples is never longer than the original; each sample reads from where the previous one stopped |
| Samples.MdatPayload | applemusic/decrypt.py:58-87 | the new payload of an `mdat`: the samples of the popped `senc` and `trun` boxes zipped and decrypted in turn (its properties are the lemmas around it) |
| Samples.SamplesOutFailureSticks | applemusic/decrypt.py:61-86 | once a sample fails, the whole `mdat` fails with that error |
| Samples.SamplesOutErrors | applemusic/decrypt.py:64-71 | an `mdat` fails only because the cipher was refused or no sample size was bound |
| Samples.DecryptSpans | applemusic/decrypt.py:78-86 | the sub-sample loop produces `SpansOut`, leaves the cursor after the sample's last pair, and advances the cipher's counter by the number of encrypted bytes it read (`CipherUsed`) |
| Samples.SpansOutNext | applemusic/decrypt.py:79-86 | one pass of the sub-sample loop appends the clear span and the cipher span transformed at the running offset |
| Samples.DecryptSample | applemusic/decrypt.py:64-86 | decrypting one sample produces `SampleOut` and advances the cursor by the output's length |
| Samples.DecryptMdat | applemusic/decrypt.py:58-87 | the `mdat` branch produces `MdatPayload`: the per-sample outputs concatenated, the trailing bytes dropped |
| Samples.SamplesOutGrows | applemusic/decrypt.py:72 | a sample that succeeds appends its output to the payload so far |
| Samples.SamplesOutStops | applemusic/decrypt.py:61-86 | a sample that fails makes the whole `mdat` fail with its error |
| Decrypt.Prepare | applemusic/decrypt.py:40-49 | the state-independent half of a pass: `fix_headers`, the box's own `stsz` size, and the `sinf` removal (its properties are the `Prepare` lemmas) |
| Decrypt.LastSize | applemusic/decrypt.py:42-43 | definition: the last `stsz` found wins, and none found leaves the size unbound; `Decrypt.PrepareSize` and `Decrypt.RunState` carry its properties |
| Decrypt.Step | applemusic/decrypt.py:39-88 | one pass of the box loop: an error ends it; otherwise the sticky sample size is updated and the box queued, decrypted or kept |
| Decrypt.Advance | applemusic/decrypt.py:51-88 | a `moof` extends both queues; an `mdat` fails on an empty queue, else pops both and is rebuilt from its decrypted payload; every box is then appended |
| Decrypt.Run | applemusic/decrypt.py:34-88 | the loop's state after the first `n` boxes, or the first error (its properties are the `Run` lemmas) |
| Decrypt.DecryptedBoxes | applemusic/decrypt.py:25-91 | the boxes `decrypt` writes, or the error it raises: the run over every box (its properties are `DecryptedBox` and `DecryptedNonMdat`) |
| Decrypt.Decrypt | applemusic/decrypt.py:25-91 | the box loop returns `DecryptedBoxes`: the boxes to write, or the first error |
| Decrypt.DecryptBox | applemusic/decrypt.py:39-88 | one pass of the loop body is one step of the state machine |
| Decrypt.QueueOrDecrypt | applemusic/decrypt.py:51-88 | the `moof`/`mdat` branches and the `append` are `Advance` |
| Decrypt.RunNext | applemusic/decrypt.py:38-88 | the state after one more box is one pass from the state before it |
| Decrypt.RunPass | applemusic/decrypt.py:38-88 | a pass moves the run on by one box, and an error in it is the error of the whole run |
| Decrypt.RunFailureSticks | applemusic/decrypt.py:38-88 | an error ends the loop: nothing after it changes the outcome |
| Decrypt.PrepareKeeps | applemusic/decrypt.py:40-49 | the header rewrites keep a box's type, an `mdat` unchanged, and its `senc` and `trun` boxes unchanged |
| Decrypt.PrepareSize | applemusic/decrypt.py:42-43 | a box binds the size of its last `stsz`, if it has one |
| Decrypt.PrepareFails | applemusic/decrypt.py:45-46 | the rewrites of a box raise exactly when it holds an stsd without entries |
| Decrypt.StepKeeps | applemusic/decrypt.py:88 | a pass keeps one more box and leaves those kept before it alone |
| Decrypt.RunLength | applemusic/decrypt.py:37-88 | one box is kept per box read |
| Decrypt.RunSucceededBefore | applemusic/decrypt.py:38-88 | a state reached without error was reached from one without error |
| Decrypt.RunKeepsBoxes | applemusic/decrypt.py:37-88 | the boxes kept for a prefix of the input never change afterwards |
| Decrypt.RunState | applemusic/decrypt.py:35-56 | after `n` boxes, the sample size is that of the last `stsz` seen, and each queue is what the `moof` boxes queued less one box per `mdat` |
| Decrypt.StepState | applemusic/decrypt.py:42-56 | one pass keeps that description true |
| Decrypt.DequeExtended | applemusic/decrypt.py:51-53 | a `moof` extends the queues with its `senc` and `trun` boxes, in document order |
| Decrypt.DequePopped | applemusic/decrypt.py:54-56 | an `mdat` pops the front of each queue |
| Decrypt.DequeKept | applemusic/decrypt.py:51-54 | any other box leaves the queues alone |
| Decrypt.StepKept | applemusic/decrypt.py:51-88 | a pass keeps the rewritten box, or for an `mdat` the box rebuilt from the payload decrypted with the fronts of the queues |
| Decrypt.StepWritten | applemusic/decrypt.py:51-88 | the box a pass keeps is written as `WrittenAs` says |
| Decrypt.RunWritten | applemusic/decrypt.py:37-88 | the box kept for the last box read is written as `WrittenAs` says |
| Decrypt.DecryptedBox | applemusic/decrypt.py:37-90 | one box is written per box read, in input order. Any box but an `mdat` is written as rewritten. The `mdat` after `i` earlier ones is decrypted with the `i`-th queued `senc` and `trun` boxes and the sample size of the last `stsz` up to it |
| Decrypt.PrepareChanges | applemusic/decrypt.py:40-49 | the rewrites change only the contents of stsd boxes; the stsd boxes found afterwards are the original ones, in order, with formats fixed and the first entry's visited `sinf` children removed |
| Decrypt.DecryptedNonMdat | applemusic/decrypt.py:37-90 | a box other than an `mdat` is written with only the format rewrite and the `sinf` removal applied to its stsd boxes |
| Decrypt.ParsedMdat | applemusic/decrypt.py:51-54 | for a box the library produced, the loop treats it as an `mdat` exactly when its type is `mdat` |
| Decrypt.StepEmptyQueue | applemusic/decrypt.py:54-56 | an `mdat` fails with `EmptyQueue` exactly when a queue is empty |
| Decrypt.EmptyQueueFails | applemusic/decrypt.py:51-56 | an `mdat` fails with `EmptyQueue` exactly when as many `mdat` boxes came before it as `senc` (or `trun`) boxes were queued |
| Decrypt.QueuedTyped | applemusic/decrypt.py:52-53 | the queues hold only boxes of their own type |
| Decrypt.QueuedByBox | applemusic/decrypt.py:51-54 | a `moof` read without error queues its own `senc` and `trun` boxes, and an `mdat` counts as one |
| Lyrics.TagEnd | applemusic/models/lyrics.py:55 | the end of the opening tag, when found, lies inside the text |
| Lyrics.CloseAt | applemusic/models/lyrics.py:55 | the closing tag, when found, lies inside the text |
| Lyrics.TagEndIsFirst | applemusic/models/lyrics.py:55 | the lazy `<p.*?>` ends at the first `>` on the line, and finds none only when the line has none |
| Lyrics.CloseAtIsFirst | applemusic/models/lyrics.py:55 | the lazy `(.*?)</p>` ends at the first `</p>` on the line, and finds none only when the line has none |
| Lyrics.MatchHere | applemusic/models/lyrics.py:55 | a match at a position lies inside the text, with the capture between tag end and `</p>` |
| Lyrics.MatchHereMatches | applemusic/models/lyrics.py:55 | what the scanner reports is a match of the pattern |
| Lyrics.MatchHereIsLeast | applemusic/models/lyrics.py:55 | the scanner reports the match with the earliest `>` and, for it, the earliest `</p>`, which is the match the lazy quantifiers select; it finds none exactly when the pattern cannot match there |
| Lyrics.MatchBeatsLater | applemusic/models/lyrics.py:55 | any match of the pattern at a position makes the scanner succeed there with one no later |
| Lyrics.FindAll | applemusic/models/lyrics.py:55 | `re.findall`: the scanner's match at each position, left to right, the next attempt starting after the `</p>` of the last match (its properties are the lemmas below) |
| Lyrics.FindAllSpaced | applemusic/models/lyrics.py:55 | k matches take at least 7k characters of the input, the seven of `<p>` and `</p>` for each |
| Lyrics.Join | applemusic/models/lyrics.py:56 | `"\n".join`: the lines with a newline between each two (its properties are `JoinNewlines` and `SplitJoin`) |
| Lyrics.Split | applemusic/models/lyrics.py:56 | the inverse of the newline join, used only to state what the join keeps; no source line splits; splitting gives at least one piece |
| Lyrics.FindAllOneLine | applemusic/models/lyrics.py:55 | no capture holds a newline |
| Lyrics.JoinNewlines | applemusic/models/lyrics.py:56 | joining `k` lines without newlines gives exactly `k - 1` newlines |
| Lyrics.SplitLine | applemusic/models/lyrics.py:56 | splitting a line without newline gives the line, and splitting the line, a newline and more text gives the line and the split of the rest |
| Lyrics.SplitJoin | applemusic/models/lyrics.py:56 | splitting at newlines undoes joining lines that hold none |
| Lyrics.Lyrics.Ttml | applemusic/models/lyrics.py:47-50 | the `ttml` property returns the stored attribute |
| Lyrics.Lyrics.Clean | applemusic/models/lyrics.py:52-56 | the `clean` property: the captures of `findall` joined with newlines (its properties are `CleanLines` and `CleanRender`) |
| Lyrics.Lyrics.ToString | applemusic/models/lyrics.py:41-42 | `str(lyrics)` is the `clean` property |
| Lyrics.CleanLines | applemusic/models/lyrics.py:41-56 | `str(lyrics)` is `clean` of the stored TTML: empty when nothing matches; otherwise `k - 1` newlines for `k` matches, and splitting it gives the captures back in order |
| Lyrics.NoMatchNoLines | applemusic/models/lyrics.py:55-56 | where the pattern matches nowhere, `findall` finds nothing |
| Lyrics.Texts | applemusic/models/lyrics.py:55 | one text per paragraph |
| Lyrics.TagEndOfAttributes | applemusic/models/lyrics.py:55 | in a rendered element the opening tag ends at the `>` after its attributes |
| Lyrics.CloseAfterText | applemusic/models/lyrics.py:55 | in a rendered element the capture ends at the `</p>` after its text |
| Lyrics.MatchElement | applemusic/models/lyrics.py:55 | the match at a rendered element captures exactly its text and ends where the element ends |
| Lyrics.FindAllElement | applemusic/models/lyrics.py:55 | scanning resumes right after the `</p>` of a match |
| Lyrics.FindAllRender | applemusic/models/lyrics.py:55 | `findall` over rendered paragraphs gives back their texts, in order |
| Lyrics.CleanRender | applemusic/models/lyrics.py:41-56 | lyrics whose TTML is rendered paragraphs print as the paragraphs' texts joined by newlines |
| Errors.Digits | applemusic/errors.py:40 | the decimal rendering of a number has at least one digit |
| Errors.DigitsValueOfDigits | applemusic/errors.py:40 | reading the decimal rendering back gives the number |
| Errors.Display | applemusic/errors.py:38-41 | definition: `str()` of None, a bool, an int and a string as the f-string renders them (`None`, `True`/`False`, signed decimal digits, the string itself); `Errors.DisplayNumber`, `Errors.MessageOfStringTitle` and `Errors.MessageWithoutTitle` carry its properties |
| Errors.DisplayNumber | applemusic/errors.py:40 | an integer is rendered as decimal digits, after a `-` when it is negative, and reading them back gives the integer |
| Errors.SourceFrom | applemusic/errors.py:4-6 | `ErrorSource(**value)` succeeds exactly on a mapping whose `parameter` and `pointer`, where present, are strings, and takes them, the empty string for a missing one |
| Errors.Get | applemusic/errors.py:30-35 | definition: `data.get(key)`, with None for a missing key; `Errors.FromData` carries its properties |
| Errors.FromData | applemusic/errors.py:28-35 | a missing `detail` gives the default detail; a missing `source` gives an empty source and cannot fail; `code`, `id`, `status` and `title` are copied, and are `None` when missing; a present `detail` is copied |
| Errors.FromDataFails | applemusic/errors.py:4-6 | building the exception fails exactly on a `source` that is not a mapping, or whose `parameter` or `pointer` is not a string |
| Errors.SourceFromFields | applemusic/errors.py:4-6 | a source mapping gives its string fields, the empty string for those missing, and ignores other keys |
| Errors.Message | applemusic/errors.py:37-41 | with the default detail a string title is the whole message; with any other detail a message starts with the title and `": "` |
| Errors.MessageOfStringTitle | applemusic/errors.py:37-41 | for a string title, the message is the title alone exactly when the detail is the default; otherwise title, `": "` and detail |
| Errors.MessageOfData | applemusic/errors.py:28-41 | from the error object: no detail or the default detail gives the title; another string detail gives title, `": "` and detail |
| Errors.MessageWithoutTitle | applemusic/errors.py:30-41 | without a title the message is `None` when there is no detail; with one, the concatenation raises |

## Left out

- Parsing and building boxes (`Box.parse_stream`, `Box.build`) belong to the pymp4
  library, which is not part of this model. The input is the sequence of parsed
  boxes, and the output is the sequence of boxes that would be built.
- The file and stream plumbing (`BufferedReader`, `peek`, `out.write`) is left out.
- Boxes.Parsed: the box library parses every box of type stsd, stsz, senc, trun or
  mdat into its own structure. The box datatype can also express an opaque box of
  one of those types, which the library never produces. The loop would keep such
  a box as it is and not decrypt it. The lemmas about the loop hold for every
  tree, and `ParsedTypes`, `ParsedFind` and `ParsedMdat` state that type and
  structure agree, and so do the two searches, on the trees the library produces.
- Boxes.TrunSample: every `trun` entry carries a sample size. A `trun` without
  per-sample sizes, for which `read(None)` would read to the end of the payload,
  is not modelled.
- The box tree keeps only the boxes and fields the decryptor touches. Every other
  box is kept as an opaque leaf or container.
- `BoxUtil.find` is modelled as a depth-first search in document order that does
  not descend into a match or into sample entries. The library itself is not part
  of this model.
- `entry.format`, the `sinf` children and `box.data` are updated in place in the
  source. The model rebuilds the box as a value instead. Nothing aliases these
  boxes, since each is parsed afresh, so no sharing is lost.
- Boxes.SinfStripped: `list.remove(b)` removes the first child equal to `b`. The
  model removes the child being visited. The model assumes that the library never
  produces two equal sibling boxes, so that the first equal child is the visited
  one. If two equal `sinf` siblings did occur, the model would not capture which
  one is removed.
- The skip past the child after each removed `sinf` is kept as the source has it.
- The AES block function is a parameter of the model (`E`). Its internals are not
  modelled.
- Ctr.Be64: the model's counter wraps at 2^64 blocks, where Cryptodome raises an
  error instead. A sample that long cannot occur.
- The content key is an input. How it is obtained (the Widevine licence exchange)
  is network code, and is not part of this model.
- Numbers in error objects are integers. JSON floats are not modelled.
- Errors.Message: `str()` of a list or dict title or detail is not rendered
  (`NotRendered`), because Python's rendering of containers is not modelled. In
  particular, `+=` onto a list title extends the list.
- Errors.FromDataFails: a non-string `parameter` or `pointer` is a validation
  error. Some pydantic versions would coerce a number to a string instead.
- The play parameters of `LyricsAttributes` are not modelled. `Lyrics.__repr__`
  only formats `str` and the id, and is not modelled.
- The HTTP endpoint wrappers, the retry loop and the other pydantic model classes
  are not part of this model.
