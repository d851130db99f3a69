# SoundSketcher core, modelled in Dafny

SoundSketcher is a small Swing music sketcher. The user draws cells on a
grid to place notes, control changes and whole tracks on a time line. The
program keeps these as audio events in a home-made growable array, and
saves and loads a song as a plain text file. This project models four
parts of that program and proves what they promise.

- **`BetterDynamicArray`** (`dynamic_array.dfy`; the stable sort that
  `java.util.Arrays.sort` stands for is in `sorting.dfy`).
  - A class over an `array` of slots, with a ghost `Contents` sequence.
  - Every operation is proved against `Contents`: add, insert, get, set,
    both removes, clear, sort, `toString` and the iterator.
  - The capacity starts at 10 and doubles only when an insertion finds
    the array full; this is proved as a class invariant.
  - Sorting is proved to give a sorted permutation that keeps equal
    elements in their original order.
- **The audio events** (`audio_events.dfy`).
  - `ChangeEvent`, `NoteEvent` and `TrackEvent` are one datatype.
  - `compareTo` is a total preorder: by time, then change before note
    before track.
  - `execute`, `complete` and `cancel` are modelled as the effect they
    have on the synthesizer or the sequencer. `cancel` undoes `execute`.
  - `toString` is injective in an event's fields.
- **`SongFiles`**.
  - `song_format.dfy` holds pure functions: the lines the writers
    produce, and a token parser that follows the readers, with their
    `Scanner` exceptions as error values.
  - `song_files.dfy` holds the imperative writers and readers over a
    `StringBuilder`-like `TextBuilder`, a `Scanner` and
    `BetterDynamicArray`s. Each is proved against those functions.
  - The headline result is the round trip: reading the text of a written
    file gives back the tempo, every track and the song. It holds when
    every name is one token, every number fits in an `int` and no event
    is `null`.
  - The file writer as written loses the song's own block; see Findings.
- **`GridCanvas`** (`grid_canvas.dfy`).
  - The pixel/index conversions are modelled with Java's truncating int
    division and 32-bit wrap-around. They are proved to bracket each pixel
    between the edges of its row and column.
  - The clamped setters are modelled.
  - Press, drag and release form a state machine that previews a cell and
    commits it.
  - A right click removes every cell at an index and keeps the others in
    order.
  - Calls of the four abstract `onCell*` hooks are recorded in a log.

Supporting modules:

- outcomes.dfy: `Option`, `Result` and the Java exceptions that can occur.
- `java_int.dfy`: `Integer.compare`, `Math.max`, 32-bit wrap-around, and
  truncating division that can throw.
- decimal.dfy: how `StringBuilder.append(int)` prints and
  `Scanner.nextInt()` reads.
- `text_lines.dfy`: newline-joined text and `Scanner`'s whitespace tokens.

Each Java exception that the file layer, the array and the grid raise
themselves is a value: an `Err`/`Fail` result or an `Option`. Methods that
throw return it instead of excluding the input with a precondition. A `null`
event in the song data is `None`. Two exceptions are not modelled: those that
the Swing setters of `TrackPanel` can raise while a track is read, and the
`NegativeArraySizeException` of an array grown past `int` range. Both are
listed under "Left out".

Where the Java documentation and the code disagree, the model follows the
code:

- `ChangeEvent.execute` does nothing.
- `rowToPixel`'s comment says "top edge", but the code gives a row's lower
  line.
- `readAudioEventBlock` returns `null` for an unknown tag, and the `null` is
  still added to the list.
- A track event whose channel names no loaded track throws and aborts the
  whole load.
- `SongPanel.clear` only empties the song editor's events; length and tempo
  stay as they were.

## Model

| member | source | states |
|---|---|---|
| JavaInt.Max | GridCanvas.java:264-265 | `Math.max`: the result is one of the two arguments and at least both |
| JavaInt.IntegerCompare | ChangeEvent.java:61-63 | `Integer.compare`: -1, 0 or 1 exactly when less, equal or greater |
| JavaInt.Wrap | GridCanvas.java:361-393 | int arithmetic: the result is in the int range, equals the true value when that fits, and is congruent to it modulo 2^32 |
| JavaInt.Div | GridCanvas.java:361-393 | Java's `/` on int: the remainder has the dividend's sign and is smaller in magnitude than the divisor |
| JavaInt.Divide | GridCanvas.java:361-393 | an int division fails with `ArithmeticException` exactly when the divisor is 0 |
| JavaInt.DivMonotone | GridCanvas.java:371-373 | for a positive divisor the truncating quotient never decreases as the dividend grows |
| JavaInt.DivOfNonNegative | GridCanvas.java:391-393 | on a non-negative dividend and positive divisor Java's quotient is the floor quotient |
| Decimal.IntToString | SongFiles.java:29-32 | `append(int)` prints a non-empty decimal, with a leading `-` exactly for negative values and digits after it |
| Decimal.ParseInt | SongFiles.java:70 | `nextInt()` on one token accepts only a value in the int range, and never an empty token |
| Decimal.ParseIntOfIntToString | SongFiles.java:70 | `nextInt()` reads back every int that `append(int)` printed |
| TextLines.Tokens | SongFiles.java:68 | a `Scanner` splits the text into non-empty tokens without whitespace |
| TextLines.TokensOfUnlines | SongFiles.java:44 | the text of whitespace-free lines, each ended by a newline, scans back to exactly those lines |
| TextLines.IntToStringIsToken | SongFiles.java:29 | a printed int is read back as a single token |
| Sorting.SortByPermutes | BetterDynamicArray.java:170-179 | sorting rearranges the elements: the result is a permutation of the input |
| Sorting.SortBySorted | BetterDynamicArray.java:170-179 | under a comparator that keeps the `Comparable` contract, every element of the result is not after any later one |
| Sorting.SortByStable | BetterDynamicArray.java:177 | the sort is stable: elements that compare equal keep their relative order |
| AudioEvents.CompareTo | ChangeEvent.java:59-70 | `compareTo` always answers -1, 0 or 1 |
| AudioEvents.CompareToIsLexicographic | NoteEvent.java:71-84 | events order by time, and at equal times change before note before track; the answer is 0 exactly for equal time and class |
| AudioEvents.CompareToAtEqualTime | NoteEvent.java:76-82 | at equal times the order is decided by class alone, in both directions |
| AudioEvents.CompareToAtDifferentTimes | TrackEvent.java:82-84 | at different times the sign of `compareTo` is the sign of the time difference |
| AudioEvents.CompareToAntisymmetric | TrackEvent.java:80-91 | swapping the two events negates the answer |
| AudioEvents.CompareToReflexive | ChangeEvent.java:59-70 | every event compares equal to itself |
| AudioEvents.CompareToTransitive | NoteEvent.java:71-84 | "not after" is transitive |
| AudioEvents.CompareToIsTotalPreorder | AudioEvent.java:13 | the events satisfy the `Comparable` contract on every set of events |
| AudioEvents.SortedEvents | BetterDynamicArray.java:166-179 | sorting events with `compareTo` orders them by time and class, keeps every event, and keeps ties in their order |
| AudioEvents.CancelUndoesExecute | TrackEvent.java:97-116 | for every event, `cancel` undoes what `execute` did; only a change event's `execute` has no effect |
| AudioEvents.NoteCompleteIsCancel | NoteEvent.java:90-109 | a note turns its pitch on at `execute`, and `complete` and `cancel` both turn it off |
| AudioEvents.InertLifecycle | ChangeEvent.java:76-96 | a change event does nothing at any stage; a track event does nothing at `complete` and stops its sequencer at `cancel` |
| AudioEvents.IntToStringInjective | ChangeEvent.java:45-47 | different ints print differently |
| AudioEvents.DescribeInjective | NoteEvent.java:57-59 | two events of one class and name with the same `toString` have the same channel, time and class-specific fields |
| DynamicArray.InsertedElements | BetterDynamicArray.java:51-67 | inserting at `i` puts the value at `i`, keeps what was before and shifts what was after up by one |
| DynamicArray.RemovedElements | BetterDynamicArray.java:127-140 | removing at `i` keeps what was before and shifts what was after down by one |
| DynamicArray.RemovedInserted | BetterDynamicArray.java:127-140 | `remove(i)` undoes `insert(i, v)` |
| DynamicArray.InsertedAtEnd | BetterDynamicArray.java:40-42 | `add` is `insert` at the end |
| DynamicArray.IndexOf | BetterDynamicArray.java:148-156 | the position `remove(T)` finds is the first occurrence, or the size if there is none |
| DynamicArray.IndexOfFound | BetterDynamicArray.java:148-156 | a value is found exactly when it is present |
| DynamicArray.WithoutFirstSpec | BetterDynamicArray.java:148-156 | `remove(T)` takes away exactly one copy of a present value and leaves an absent one's array unchanged |
| DynamicArray.CapacityForBounds | BetterDynamicArray.java:56-58 | the capacity for `n` elements holds them, and one fewer doubling would not |
| DynamicArray.CapacityForSmallest | BetterDynamicArray.java:56-58 | no doubling of 10 that holds `n` is smaller than the capacity for `n` |
| DynamicArray.CapacityStep | BetterDynamicArray.java:56-58 | one more element doubles the capacity exactly when the array is full |
| DynamicArray.GrowthOnInsert | BetterDynamicArray.java:56-58 | after the growth check an insertion always has a free slot |
| DynamicArray.ShiftUp | BetterDynamicArray.java:60-62 | the shift loop moves the slots from `index` to `count - 1` up by one and leaves the rest |
| DynamicArray.BetterDynamicArray.constructor | BetterDynamicArray.java:30-33 | a new array is empty with capacity 10 |
| DynamicArray.BetterDynamicArray.Add | BetterDynamicArray.java:40-42 | the value joins the end; capacity as the invariant says |
| DynamicArray.BetterDynamicArray.Insert | BetterDynamicArray.java:51-67 | an index in `0..size` inserts there (doubling first if full); any other index throws and changes nothing |
| DynamicArray.BetterDynamicArray.DoubleBackingArray | BetterDynamicArray.java:75-79 | a fresh array of twice the length holding the old slots, the new ones empty |
| DynamicArray.BetterDynamicArray.Get | BetterDynamicArray.java:89-95 | the element at the index, or `IndexOutOfBoundsException` outside `0..size-1` |
| DynamicArray.BetterDynamicArray.Size | BetterDynamicArray.java:102-104 | the number of elements |
| DynamicArray.BetterDynamicArray.Set | BetterDynamicArray.java:114-119 | replaces the element at a valid index and only that slot; otherwise throws and changes nothing |
| DynamicArray.BetterDynamicArray.RemoveAt | BetterDynamicArray.java:127-140 | removes the element at a valid index, shifting the rest down and nulling the freed slot; otherwise throws and changes nothing |
| DynamicArray.BetterDynamicArray.RemoveValue | BetterDynamicArray.java:148-156 | removes the first occurrence of the value, if any |
| DynamicArray.BetterDynamicArray.Clear | BetterDynamicArray.java:161-163 | no elements remain; the backing array is kept |
| DynamicArray.BetterDynamicArray.Sort | BetterDynamicArray.java:170-179 | the elements become their stable sort by the comparator; slots past the end are untouched |
| DynamicArray.BetterDynamicArray.ToString | BetterDynamicArray.java:188-197 | the elements in brackets, comma separated, then the backing array's length |
| DynamicArray.BetterDynamicArray.Iterator | BetterDynamicArray.java:200-203 | a new iterator over this array, at its start |
| DynamicArray.ArrayIterator.constructor | BetterDynamicArray.java:202 | the iterator starts at index 0 |
| DynamicArray.ArrayIterator.HasNext | BetterDynamicArray.java:205-207 | true exactly while elements remain |
| DynamicArray.ArrayIterator.Next | BetterDynamicArray.java:210-215 | the next element and a step forward, or `NoSuchElementException` with no step at the end |
| SongFormat.EventRecord | SongFiles.java:143-170 | an event is written as six lines with its name second; a `null` event writes nothing |
| SongFormat.TokenAt | SongFiles.java:186 | `next()` gives the next token, or `NoSuchElementException` at the end |
| SongFormat.IntAt | SongFiles.java:187-191 | `nextInt()` gives the next token's int value; a token that is not an int throws `InputMismatchException`, no token throws `NoSuchElementException` |
| SongFormat.ParseEventsStep | SongFiles.java:203-207 | reading `n` events reads one and then `n - 1` more; the first failure ends the reading |
| SongFormat.UnknownTagIsNull | SongFiles.java:261-273 | a well-formed record with an unknown tag is read as `null`, and its six tokens are consumed |
| SongFormat.DanglingTrackFails | SongFiles.java:269-270 | a track record whose channel names no loaded track throws `IndexOutOfBoundsException` |
| SongFormat.LoadTracksUnfold | SongFiles.java:76-78 | the track loop reads one block and goes on with the rest; a failed block ends the load |
| SongFormat.ReloadKeepsFields | SongFiles.java:252-274 | reading an event back keeps its class, time, name, channel and fields; only a track event's sequencer may change |
| SongFormat.ReloadTracks | SongFiles.java:193-209 | the `k`-th track read back has number `k`, the written settings, the file's tempo, its events read back and the `k`-th new sequencer |
| SongFormat.RecordAtOfRecord | SongFiles.java:254-259 | the six lines of a writable event read back as its fields, consuming exactly six tokens |
| SongFormat.EventOfFieldsOf | SongFiles.java:261-272 | the fields of a writable event build the same event, with a track event pointed at the loaded track's sequencer |
| SongFormat.ParseEventOfRecord | SongFiles.java:252-274 | round trip of one event: what `writeAudioEventBlock` writes, `readAudioEventBlock` reads back as the same event |
| SongFormat.ParseEventsOfRecords | SongFiles.java:203-207 | round trip of an event list: the records of `n` writable events read back as those events, in order |
| SongFormat.TrackHeaderAtOfHeader | SongFiles.java:186-191 | the header that `writeTrackBlock` writes reads back as its number, instrument, volume, length and event count |
| SongFormat.LoadTracksOfBlocks | SongFiles.java:76-78 | round trip of the tracks: the written track blocks read back as the same tracks, ending just after the last block |
| SongFormat.SongHeaderAtOfHeader | SongFiles.java:225-227 | a song header reads back as its length and event count |
| SongFormat.LoadSongOfBlock | SongFiles.java:223-240 | round trip of the song: a song block reads back as the song's length and events, with the file's tempo |
| SongFormat.FileTextIsTokens | SongFiles.java:24-43 | every line of a writable file is a single token |
| SongFormat.LoadFileOfFileText | SongFiles.java:63-87 | round trip of a file, as tokens: tempo, tracks and song come back as written |
| SongFormat.LoadFileOfText | SongFiles.java:63-87 | round trip of a file, through its text: `Scanner` on the written text loads the tempo, tracks and song that were written |
| SongFormat.LoadFileOfFileTextAsWritten | SongFiles.java:41 | a file written as the code does reads back with length = the track count and the tracks' events as the song's events |
| SongFormat.SongLengthLostAsWritten | SongFiles.java:117-135 | counterexample: a song of length 16 with no tracks is read back with length 0; the corrected writer gives 16 |
| SongFiles.TextBuilder.constructor | SongFiles.java:26 | a new builder holds no text |
| SongFiles.TextBuilder.AppendLine | SongFiles.java:29 | `append(x).append("\n")` adds one line |
| SongFiles.TextBuilder.ToString | SongFiles.java:44 | the text is each line followed by a newline |
| SongFiles.Scanner.constructor | SongFiles.java:68 | a scanner over a text starts before its first token |
| SongFiles.Scanner.Next | SongFiles.java:186 | `next()` as `TokenAt` says; it does not advance when it throws |
| SongFiles.Scanner.NextInt | SongFiles.java:187 | `nextInt()` as `IntAt` says; it does not advance when it throws |
| SongFiles.SongPanel.Clear | SongPanel.java:145-147 | `clear()` empties the events and nothing else |
| SongFiles.SongPanel.SetLength | SongPanel.java:96-97 | `setLength` sets only the length |
| SongFiles.SongPanel.SetTempo | SongFiles.java:230 | `setTempo` sets only the tempo |
| SongFiles.SongPanel.SetEvents | SongPanel.java:137-139 | `setEvents` sets only the events |
| SongFiles.WriteAudioEventBlock | SongFiles.java:143-170 | appends exactly the event's record: six lines for an event, nothing for `null` |
| SongFiles.AppendRecord | SongFiles.java:145-168 | appends the tag, the name and four printed ints, one line each |
| SongFiles.WriteEventBlocks | SongFiles.java:105-107 | appends the records of the events in order |
| SongFiles.WriteTrackBlock | SongFiles.java:96-108 | appends the track's header and its events' records |
| SongFiles.CountTrackEvents | SongFiles.java:122-126 | the total number of events over all tracks |
| SongFiles.WriteTrackEvents | SongFiles.java:129-133 | appends every track's event records, track after track |
| SongFiles.WriteEventsOfTrack | SongFiles.java:130-132 | one pass of the inner loop appends one more track's records |
| SongFiles.WriteSongBlockAsWritten | SongFiles.java:117-135 | appends `song`, the length given, the total event count and all tracks' event records |
| SongFiles.WriteSongBlock | SongFiles.java:117-135 | corrected: appends `song`, the song's own length, its event count and its events' records |
| SongFiles.WriteTracks | SongFiles.java:29-38 | writes the tempo, the track count and every track block |
| SongFiles.WriteTrackBlocks | SongFiles.java:35-38 | appends the blocks of all tracks, numbered from 0 |
| SongFiles.WriteTrackAt | SongFiles.java:36-37 | one pass of the track loop appends the next track's block |
| SongFiles.WriteFileAsWritten | SongFiles.java:24-48 | `writeFile` as written: the text of tempo, tracks and a song block built from the tracks |
| SongFiles.WriteFile | SongFiles.java:24-48 | corrected `writeFile`: the text of tempo, tracks and the song's own block |
| SongFiles.ReadAudioEventBlock | SongFiles.java:252-274 | reads one event as `ParseEvent` says, with its exceptions, advancing past its record |
| SongFiles.ReadRecord | SongFiles.java:254-259 | reads the six tokens of a record, or the first exception |
| SongFiles.ReadEventInto | SongFiles.java:204-206 | one pass of the event loop reads one event and adds it, or reports the exception |
| SongFiles.ReadEventsInto | SongFiles.java:203-207 | the event loop collects what `ParseEvents` reads, or stops at its exception |
| SongFiles.ReadEvents | SongFiles.java:201-207 | reads `n` events as `ParseEvents` says, advancing past them |
| SongFiles.ReadTrackHeader | SongFiles.java:186-191 | reads the six header tokens of a track block, or the first exception |
| SongFiles.ReadTrackBlock | SongFiles.java:184-210 | reads one track block as `LoadTrack` says; a failed block adds no track |
| SongFiles.ReadSongBlock | SongFiles.java:223-240 | sets the song's length and tempo, then its events if they all read; as `LoadSong` says |
| SongFiles.ReadTrackBlocks | SongFiles.java:76-78 | the track loop loads as `LoadTracks` says and reports whether every block read |
| SongFiles.ReadTrackInto | SongFiles.java:77 | one pass of the track loop reads one block and leaves the rest of the load to do |
| SongFiles.ReadFile | SongFiles.java:63-87 | clears tracks and song events, then sets the tempo, tracks and song as `LoadFile` says; an exception keeps what was read before it |
| Grid.PixelToColInGrid | GridCanvas.java:391-393 | every pixel inside the width falls in a column between 0 and `columns - 1` |
| Grid.PixelToRowInGrid | GridCanvas.java:381-383 | every pixel inside the height falls in a row between 0 and `rows - 1`, counted from the bottom |
| Grid.ColToPixelInGrid | GridCanvas.java:371-373 | for columns 0 to `columns`, the left edge is computed without overflow or division error |
| Grid.RowToPixelInGrid | GridCanvas.java:361-363 | for rows 0 to `rows`, the line under the row is computed without overflow and lies within the height |
| Grid.ColToPixelEnds | GridCanvas.java:371-373 | column 0 starts at x 0 and column `columns` at the width |
| Grid.RowToPixelEnds | GridCanvas.java:361-363 | row 0's line is the bottom edge and row `rows`'s line the top edge |
| Grid.ColToPixelMonotone | GridCanvas.java:371-373 | column edges move right as the column grows |
| Grid.RowToPixelAntitone | GridCanvas.java:361-363 | row lines move up as the row grows |
| Grid.PixelToColBetweenEdges | GridCanvas.java:391-393 | a pixel lies between the left edges of its column and of the next |
| Grid.PixelToRowBetweenLines | GridCanvas.java:381-383 | a pixel's lower edge lies between the lines of its row and of the row above |
| Grid.PixelToColLeftOfGrid | GridCanvas.java:391-393 | truncating division makes a pointer less than a column left of the grid read as column 0 |
| Grid.DragAxis | GridCanvas.java:278-288 | a restricted axis jumps to the pointer with the restricted span; a free axis keeps its anchor and stretches to the pointer, positive exactly when the pointer is not before the anchor |
| Grid.Without | GridCanvas.java:325-330 | no cell at the index is left, and nothing is added |
| Grid.WithoutCounts | GridCanvas.java:325-330 | every cell at the index goes; every other cell stays as often as it was there |
| Grid.WithoutIsSubsequence | GridCanvas.java:325-330 | the cells that stay keep their order |
| Grid.RemoveStep | GridCanvas.java:326-330 | one pass of the removal loop removes the cell there if it is at the index, and steps back so the next cell is examined |
| Grid.RemoveCellsAt | GridCanvas.java:325-330 | the removal loop leaves exactly the cells not at the index, in order |
| Grid.GridCanvas.constructor | GridCanvas.java:50-74 | the given layout, no restrictions, no cells, no preview and no hook calls |
| Grid.GridCanvas.SetColumns | GridCanvas.java:82-88 | a positive count is taken, anything else becomes 1; nothing else changes |
| Grid.GridCanvas.SetRows | GridCanvas.java:96-102 | a positive count is taken, anything else becomes 1; nothing else changes |
| Grid.GridCanvas.SetRestrictions | GridCanvas.java:111-114 | sets both restrictions and nothing else |
| Grid.GridCanvas.Resize | GridCanvas.java:152-153 | the width and height become the component's size; nothing else changes |
| Grid.GridCanvas.AddCell | GridCanvas.java:125-129 | the cell joins the end of the collection |
| Grid.GridCanvas.Clear | GridCanvas.java:134-137 | no cells remain |
| Grid.GridCanvas.MousePressed | GridCanvas.java:259-269 | the left button starts a preview at the pressed row and column with spans of at least 1 and calls `onCellPressed` once; other buttons change nothing; a division by zero stops it partway |
| Grid.GridCanvas.MouseDragged | GridCanvas.java:276-291 | while drawing, the rows and then the columns follow the pointer as `DragAxis` says, then `onCellDragged` is called once; otherwise nothing changes |
| Grid.GridCanvas.MouseReleased | GridCanvas.java:298-311 | while drawing, a preview with both spans positive becomes a cell, `onCellReleased` is called either way and the preview is reset; otherwise nothing changes |
| Grid.GridCanvas.EndPreview | GridCanvas.java:303-307 | the preview is reset to -1 everywhere and drawing stops |
| Grid.GridCanvas.MouseClicked | GridCanvas.java:320-333 | a button other than the left removes every cell at the clicked index, keeping the others in order, and calls `onCellRemoved` once; the left button changes nothing |

## Left out

- File I/O is not modelled. `FileWriter`, `Scanner(File)`, the `try` blocks and `printStackTrace` are replaced by a text value. `writeFile` returns the text it would write. `readFile` takes the text it would read. On an exception, the model does what the `catch` block does: it keeps whatever was read before.
- The synthesizer and the sequencers are not modelled. `execute`, `complete` and `cancel` are modelled as the effect each one has (note on, note off, start, stop), not as audio.
- SongFiles.ReadFile: the sequencer that each `new TrackPanel` creates is modelled as the next element of a `supply` parameter.
  - The `TrackPanel` constructor (a Swing panel) is not part of this model.
  - A supply shorter than the track count makes the load stop at the first track without a sequencer. In the program this cannot happen.
- `TrackPanel` and `SongPanel` are not modelled as Swing panels. Only the values that the file layer sets and reads are kept. `SongPanel.setLength`'s spinner update is left out.
- SongFormat.LoadTrack / SongFiles.ReadTrackBlock: the model takes the instrument number to be valid. `setInstrument` passes it to the combo box's `setSelectedIndex` (TrackPanel.java:208-211). That call throws `IllegalArgumentException` for an index below -1, or for one at or above the synthesizer's instrument count. `readFile` catches the exception (SongFiles.java:83), so in the program the load would end with that track missing and the song block unread. The model adds the track.
- SongFormat.LoadTrack / SongFiles.ReadTrackBlock: the model keeps the volume exactly as read. In the program, `setVolume` stores it in the synthesizer channel of the track number (TrackEditor.java:76-87) and sets the 0..127 slider (TrackPanel.java:80, 189-192), which clamps it. The synthesizer is not part of this model.
- SongFiles.ReadFile: for the same reasons, it does not model these exceptions or the clamping. The instrument that `writeFile` writes is `instrumentNumber` (TrackPanel.java:200). That field is 0 or a value that an earlier read passed to `setSelectedIndex` without an exception, so a file the program wrote does not hit the instrument exception. What the synthesizer keeps as the volume is not part of this model.
- DynamicArray.BetterDynamicArray.DoubleBackingArray: it doubles the capacity without bound. Java's `elements.length * 2` (BetterDynamicArray.java:77) overflows `int` once the backing array holds 10·2^27 = 1,342,177,280 slots. The next insertion into that full array would then throw `NegativeArraySizeException`. The model, with `add` and `insert`, does not raise it.
- SongFormat.LoadFileOfText: the round trip needs every event name to be one whitespace-free token and every number to fit in an `int`. It also needs no `null` events, because a `null` is counted in the event count but writes no record. The code checks none of these. The lemma is stated only for files that meet them.
- SongFiles.CountTrackEvents: it does not model int overflow of the summed event count. The round trip lemmas require the count to fit in an `int`.
- Decimal.ParseInt: it does not accept the locale-dependent forms of `Scanner.nextInt()`: group separators and non-ASCII digits. It accepts an optional sign and ASCII digits only.
- AudioEvents.DescribeInjective: it models `TrackEvent.toString`'s event count as a parameter. It leaves out the listing of the sequencer's events, so two track events are told apart only by their own fields.
- DynamicArray.BetterDynamicArray.RemoveValue: it compares elements with datatype equality. Java calls the element's `equals`, which the event classes inherit from `Object` (identity). A `null` element there would throw a `NullPointerException`; the model does not raise it.
- DynamicArray.BetterDynamicArray.Sort: `Arrays.sort` is modelled by its documented result, a stable sort by the comparator passed in. Insertion sort is used as the reference definition; the library's merge sort is not modelled. Java's sort takes the elements' own `compareTo`; the model passes it as a parameter.
- Painting of `GridCanvas` is not modelled: the grid lines, the cell colour (the `Color` field of `Cell`), and `repaint`. `paintComponent` is kept only for the size update it makes.
- The abstract `onCell*` hooks are implemented by subclasses that are not part of this model. Each call is recorded in a log, in order. The model takes the hooks to leave the canvas unchanged. `SongEditor`'s `onCellPressed` and `onCellReleased` call `setRestrictions` (SongEditor.java:153, 192). So what Grid.GridCanvas.MousePressed and Grid.GridCanvas.MouseReleased state about the shape after the hook holds only for hooks that do not change the canvas.
- `mouseEntered`, `mouseExited` and `mouseMoved` are not modelled, because they have empty bodies.
- `TrackEditor`, `SongEditor`, `SketchingPanel`, the frame and the playback scheduler are not part of this model.

## Findings

| source | as written | input that shows it | evidently intended | confidence | as-written member | corrected member |
|---|---|---|---|---|---|---|
| SongFiles.java:41 | `writeFile` passes the track list and the track count to `writeSongBlock`, which writes the track count as the song's length and every track's events as the song's events; the `SongPanel` argument is never read | a song of length 16 with no tracks (tempo 120) is read back with song length 0 | the song block holds the song's own length and events, so that `readFile` restores them | not executed | SongFiles.WriteFileAsWritten, SongFormat.SongLengthLostAsWritten | SongFiles.WriteFile, SongFormat.LoadFileOfText |
