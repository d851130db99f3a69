/**
 * The song file format of `SongFiles`, as pure functions: what the writers
 * append, line by line, and what the readers build from the tokens.
 *
 * A file is a tempo line, a track-count line, one block per track and a
 * song block. A track block is a six-line header followed by its event
 * records; the song block is a three-line header followed by event
 * records; an event record is six lines: tag, name, time, channel, value
 * slot and duration slot.
 */
module SongFormat {
  import opened Outcomes
  import opened JavaInt
  import opened Decimal
  import opened AudioEvents
  import opened TextLines

  /**
   * A `TrackPanel` as the file layer sees it: the values its setters were
   * given, the events of its sequencer (a `null` where the reader met an
   * unknown tag) and the identity of that sequencer.
   */
  datatype TrackPanel = TrackPanel(
    number: int, instrument: int, volume: int, length: int, tempo: int,
    events: seq<Option<Event>>, sequencer: Sequencer)

  /** The state of the `SongPanel` that the file layer reads and sets. */
  datatype SongState = SongState(length: int, tempo: int, events: seq<Option<Event>>)

  // ---------------------------------------------------------------------
  // Writing
  // ---------------------------------------------------------------------

  /**
   * The lines `writeAudioEventBlock` appends. A `null` event is an instance
   * of none of the three classes, so nothing is written for it.
   */
  function EventRecord(e: Option<Event>): (lines: seq<string>)
    ensures e.Some? ==> |lines| == 6 && lines[1] == e.value.name
    ensures e.None? ==> lines == []
  {
    match e
    case None => []
    case Some(Change(time, name, channel, value)) =>
      ["change", name, IntToString(time), IntToString(channel), IntToString(value), IntToString(0)]
    case Some(Note(time, name, channel, duration, pitch)) =>
      ["note", name, IntToString(time), IntToString(channel), IntToString(pitch), IntToString(duration)]
    case Some(Track(time, name, channel, duration, _)) =>
      ["track", name, IntToString(time), IntToString(channel), IntToString(0), IntToString(duration)]
  }

  /** The records of `es`, in order. */
  function EventRecords(es: seq<Option<Event>>): seq<string> {
    if es == [] then [] else EventRecord(es[0]) + EventRecords(es[1..])
  }

  /** Appending one more event appends its record. */
  lemma {:induction false} EventRecordsSnoc(es: seq<Option<Event>>, e: Option<Event>)
    ensures EventRecords(es + [e]) == EventRecords(es) + EventRecord(e)
  {
    if es != [] {
      assert (es + [e])[1..] == es[1..] + [e];
      EventRecordsSnoc(es[1..], e);
    } else {
      assert [e][1..] == [];
    }
  }

  /** The six header lines `writeTrackBlock` appends before the events. */
  function TrackHeader(t: TrackPanel, i: int): seq<string> {
    ["track" + IntToString(i), IntToString(i), IntToString(t.instrument),
     IntToString(t.volume), IntToString(t.length), IntToString(|t.events|)]
  }

  /** The lines `writeTrackBlock(sb, t, i)` appends. */
  function TrackBlock(t: TrackPanel, i: int): seq<string> {
    TrackHeader(t, i) + EventRecords(t.events)
  }

  /** The blocks `writeFile` writes for `ts`, track `i` numbered `i`. */
  function TrackBlocks(ts: seq<TrackPanel>): seq<string> {
    if ts == [] then [] else TrackBlocks(ts[..|ts| - 1]) + TrackBlock(ts[|ts| - 1], |ts| - 1)
  }

  /** `ts[..k]`'s blocks followed by `ts[k]`'s block are `ts[..k + 1]`'s blocks. */
  lemma TrackBlocksSnoc(ts: seq<TrackPanel>, k: nat)
    requires k < |ts|
    ensures TrackBlocks(ts[..k + 1]) == TrackBlocks(ts[..k]) + TrackBlock(ts[k], k)
  {
    assert ts[..k + 1][..k] == ts[..k];
  }

  /** The blocks of the first `k` tracks are where the text of all blocks starts. */
  lemma {:induction false} TrackBlocksPrefix(ts: seq<TrackPanel>, k: nat)
    requires k <= |ts|
    ensures TrackBlocks(ts[..k]) <= TrackBlocks(ts)
    decreases |ts|
  {
    if k < |ts| {
      var init := ts[..|ts| - 1];
      assert init[..k] == ts[..k];
      TrackBlocksPrefix(init, k);
    } else {
      assert ts[..k] == ts;
    }
  }

  /** All events of all tracks, track by track. */
  function AllTrackEvents(ts: seq<TrackPanel>): seq<Option<Event>> {
    if ts == [] then [] else AllTrackEvents(ts[..|ts| - 1]) + ts[|ts| - 1].events
  }

  /** The song block the program writes: the TRACKS' events, under the given length. */
  function SongBlockAsWritten(ts: seq<TrackPanel>, length: int): seq<string> {
    ["song", IntToString(length), IntToString(|AllTrackEvents(ts)|)] + EventRecords(AllTrackEvents(ts))
  }

  /** The song block that stores the song itself: its length and its own events. */
  function SongBlock(song: SongState): seq<string> {
    ["song", IntToString(song.length), IntToString(|song.events|)] + EventRecords(song.events)
  }

  /** The whole text `writeFile` produces, one string per line. */
  function FileTextAsWritten(tempo: int, ts: seq<TrackPanel>): seq<string> {
    [IntToString(tempo), IntToString(|ts|)] + TrackBlocks(ts) + SongBlockAsWritten(ts, |ts|)
  }

  /** The file text with the song block corrected to store the song. */
  function FileText(tempo: int, ts: seq<TrackPanel>, song: SongState): seq<string> {
    [IntToString(tempo), IntToString(|ts|)] + TrackBlocks(ts) + SongBlock(song)
  }

  // ---------------------------------------------------------------------
  // Reading
  // ---------------------------------------------------------------------

  /** A value read from the tokens, and the position of the token after it. */
  datatype Parsed<T> = Parsed(value: T, next: nat)

  /** `scanner.next()` at position `pos`. */
  function TokenAt(toks: seq<string>, pos: nat): (r: Result<Parsed<string>>)
    ensures r.Ok? <==> pos < |toks|
    ensures r.Ok? ==> r.value == Parsed(toks[pos], pos + 1)
    ensures r.Err? ==> r.error == NoSuchElement
  {
    if pos < |toks| then Ok(Parsed(toks[pos], pos + 1)) else Err(NoSuchElement)
  }

  /** `scanner.nextInt()` at position `pos`. */
  function IntAt(toks: seq<string>, pos: nat): (r: Result<Parsed<int>>)
    ensures r.Ok? <==> pos < |toks| && ParseInt(toks[pos]).Some?
    ensures r.Ok? ==> r.value == Parsed(ParseInt(toks[pos]).value, pos + 1) && IsInt32(r.value.value)
    ensures r.Err? ==> r.error == if pos < |toks| then InputMismatch else NoSuchElement
  {
    if pos >= |toks| then Err(NoSuchElement)
    else match ParseInt(toks[pos])
      case None => Err(InputMismatch)
      case Some(v) => Ok(Parsed(v, pos + 1))
  }

  /** The six fields of an event record. */
  datatype RecordFields = RecordFields(tag: string, name: string, time: int, channel: int, value: int, duration: int)

  /** The six tokens `readAudioEventBlock` reads before it looks at the tag. */
  function RecordAt(toks: seq<string>, pos: nat): Result<Parsed<RecordFields>> {
    var tag :- TokenAt(toks, pos);
    var name :- TokenAt(toks, tag.next);
    var time :- IntAt(toks, name.next);
    var channel :- IntAt(toks, time.next);
    var value :- IntAt(toks, channel.next);
    var duration :- IntAt(toks, value.next);
    Ok(Parsed(RecordFields(tag.value, name.value, time.value, channel.value, value.value, duration.value),
              duration.next))
  }

  /**
   * The event `readAudioEventBlock` builds from record fields, given the
   * tracks loaded so far: `null` for an unknown tag, and an out-of-bounds
   * error when a track record's channel names no loaded track.
   */
  function EventOf(f: RecordFields, loaded: seq<TrackPanel>): Result<Option<Event>> {
    if f.tag == "change" then Ok(Some(Change(f.time, f.name, f.channel, f.value)))
    else if f.tag == "note" then Ok(Some(Note(f.time, f.name, f.channel, f.duration, f.value)))
    else if f.tag == "track" then
      if 0 <= f.channel < |loaded| then Ok(Some(Track(f.time, f.name, f.channel, f.duration, loaded[f.channel].sequencer)))
      else Err(IndexOutOfBounds)
    else Ok(None)
  }

  /** `readAudioEventBlock` at position `pos`. */
  function ParseEvent(toks: seq<string>, pos: nat, loaded: seq<TrackPanel>): Result<Parsed<Option<Event>>> {
    var f :- RecordAt(toks, pos);
    var e :- EventOf(f.value, loaded);
    Ok(Parsed(e, f.next))
  }

  /** `xs` in front of the events of a successful read. */
  function Prepended(xs: seq<Option<Event>>, r: Result<Parsed<seq<Option<Event>>>>): Result<Parsed<seq<Option<Event>>>> {
    match r
    case Ok(p) => Ok(Parsed(xs + p.value, p.next))
    case Err(e) => Err(e)
  }

  /** `n` event records read in a row, as the reading loops do (none when `n <= 0`). */
  function ParseEvents(toks: seq<string>, pos: nat, n: int, loaded: seq<TrackPanel>): Result<Parsed<seq<Option<Event>>>>
    decreases n, 1
  {
    if n <= 0 then Ok(Parsed([], pos)) else ParseMoreEvents(toks, pos, n, loaded)
  }

  /** `n > 0` event records read in a row: the first one, then the `n - 1` others. */
  function ParseMoreEvents(toks: seq<string>, pos: nat, n: int, loaded: seq<TrackPanel>): Result<Parsed<seq<Option<Event>>>>
    requires n > 0
    decreases n, 0
  {
    var e :- ParseEvent(toks, pos, loaded);
    Prepended([e.value], ParseEvents(toks, e.next, n - 1, loaded))
  }

  /** Reading `n > 0` records: the first one, then the others after it. */
  lemma ParseEventsStep(toks: seq<string>, pos: nat, n: int, loaded: seq<TrackPanel>)
    requires n > 0
    ensures ParseEvent(toks, pos, loaded).Err? ==> ParseEvents(toks, pos, n, loaded) == Err(ParseEvent(toks, pos, loaded).error)
    ensures ParseEvent(toks, pos, loaded).Ok? ==>
      var e := ParseEvent(toks, pos, loaded).value;
      ParseEvents(toks, pos, n, loaded) == Prepended([e.value], ParseEvents(toks, e.next, n - 1, loaded))
  {
    assert ParseEvents(toks, pos, n, loaded) == ParseMoreEvents(toks, pos, n, loaded);
  }

  /** The header fields of a track block: number, instrument, volume, length and event count. */
  datatype TrackFields = TrackFields(number: int, instrument: int, volume: int, length: int, count: int)

  /** The six header tokens `readTrackBlock` reads; the first, the block's name, is skipped. */
  function TrackHeaderAt(toks: seq<string>, pos: nat): Result<Parsed<TrackFields>> {
    var name :- TokenAt(toks, pos);
    var number :- IntAt(toks, name.next);
    var instrument :- IntAt(toks, number.next);
    var volume :- IntAt(toks, instrument.next);
    var length :- IntAt(toks, volume.next);
    var count :- IntAt(toks, length.next);
    Ok(Parsed(TrackFields(number.value, instrument.value, volume.value, length.value, count.value), count.next))
  }

  /** The header fields of the song block: length and event count. */
  datatype SongFields = SongFields(length: int, count: int)

  /** The three header tokens `readSongBlock` reads; the first, `song`, is skipped. */
  function SongHeaderAt(toks: seq<string>, pos: nat): Result<Parsed<SongFields>> {
    var name :- TokenAt(toks, pos);
    var length :- IntAt(toks, name.next);
    var count :- IntAt(toks, length.next);
    Ok(Parsed(SongFields(length.value, count.value), count.next))
  }

  /**
   * How far reading the track blocks got: the tracks added to `tracks`, and
   * whether reading went on without an exception (and where it stopped).
   */
  datatype Progress = Progress(loaded: seq<TrackPanel>, ok: bool, next: nat)

  /**
   * One `readTrackBlock`. A panel is created once its header is read, with
   * the next sequencer of `supply`; it joins `loaded` only when all its
   * events were read. An exception leaves `loaded` as it was.
   */
  function LoadTrack(toks: seq<string>, pos: nat, loaded: seq<TrackPanel>, tempo: int, supply: seq<Sequencer>): Progress {
    match TrackHeaderAt(toks, pos)
    case Err(_) => Progress(loaded, false, pos)
    case Ok(h) =>
      if |supply| <= |loaded| then Progress(loaded, false, pos)
      else match ParseEvents(toks, h.next, h.value.count, loaded)
        case Err(_) => Progress(loaded, false, pos)
        case Ok(es) =>
          var t := TrackPanel(h.value.number, h.value.instrument, h.value.volume, h.value.length, tempo,
                              es.value, supply[|loaded|]);
          Progress(loaded + [t], true, es.next)
  }

  /** `n` iterations of `readTrackBlock`; the first exception ends the load. */
  function LoadTracks(toks: seq<string>, pos: nat, n: int, loaded: seq<TrackPanel>, tempo: int,
                      supply: seq<Sequencer>): Progress
    decreases n, 1
  {
    if n <= 0 then Progress(loaded, true, pos) else LoadMoreTracks(toks, pos, n, loaded, tempo, supply)
  }

  /** `n > 0` iterations of `readTrackBlock`: one, then the others unless it failed. */
  function LoadMoreTracks(toks: seq<string>, pos: nat, n: int, loaded: seq<TrackPanel>, tempo: int,
                          supply: seq<Sequencer>): Progress
    requires n > 0
    decreases n, 0
  {
    var p := LoadTrack(toks, pos, loaded, tempo, supply);
    if !p.ok then p else LoadTracks(toks, p.next, n - 1, p.loaded, tempo, supply)
  }

  /** `n > 0` iterations: the first `readTrackBlock`, then the others unless it failed. */
  lemma LoadTracksUnfold(toks: seq<string>, pos: nat, n: int, loaded: seq<TrackPanel>, tempo: int,
                         supply: seq<Sequencer>)
    requires n > 0
    ensures !LoadTrack(toks, pos, loaded, tempo, supply).ok ==>
      LoadTracks(toks, pos, n, loaded, tempo, supply) == LoadTrack(toks, pos, loaded, tempo, supply)
    ensures LoadTrack(toks, pos, loaded, tempo, supply).ok ==>
      var p := LoadTrack(toks, pos, loaded, tempo, supply);
      LoadTracks(toks, pos, n, loaded, tempo, supply) == LoadTracks(toks, p.next, n - 1, p.loaded, tempo, supply)
  {
    assert LoadTracks(toks, pos, n, loaded, tempo, supply) == LoadMoreTracks(toks, pos, n, loaded, tempo, supply);
  }

  /**
   * `readSongBlock` on a cleared song: length and tempo are set once the
   * header is read, the events once they all were.
   */
  function LoadSong(toks: seq<string>, pos: nat, loaded: seq<TrackPanel>, tempo: int, song: SongState): SongState {
    match SongHeaderAt(toks, pos)
    case Err(_) => song
    case Ok(h) =>
      var updated := song.(length := h.value.length, tempo := tempo);
      match ParseEvents(toks, h.next, h.value.count, loaded)
      case Err(_) => updated
      case Ok(es) => updated.(events := es.value)
  }

  /** What `readFile` leaves behind: the tempo it returns, the tracks and the song. */
  datatype FileLoad = FileLoad(tempo: int, tracks: seq<TrackPanel>, song: SongState)

  /**
   * `readFile` on the tokens `toks`, with `song0` the song before the call:
   * the tracks and the song's events are cleared first, and whatever was
   * read before an exception stays. The tempo is 0 when it could not be read.
   */
  function LoadFile(toks: seq<string>, supply: seq<Sequencer>, song0: SongState): FileLoad {
    var cleared := song0.(events := []);
    match IntAt(toks, 0)
    case Err(_) => FileLoad(0, [], cleared)
    case Ok(tempo) =>
      match IntAt(toks, tempo.next)
      case Err(_) => FileLoad(tempo.value, [], cleared)
      case Ok(n) =>
        var p := LoadTracks(toks, n.next, n.value, [], tempo.value, supply);
        if !p.ok then FileLoad(tempo.value, p.loaded, cleared)
        else FileLoad(tempo.value, p.loaded, LoadSong(toks, p.next, p.loaded, tempo.value, cleared))
  }

  // ---------------------------------------------------------------------
  // Round trips
  // ---------------------------------------------------------------------

  /** An event whose record reads back, inside a block that may refer to `k` tracks. */
  predicate WritableEvent(e: Option<Event>, k: int) {
    e.Some? && IsToken(e.value.name) && IsInt32(e.value.time) && IsInt32(e.value.channel)
    && match e.value
       case Change(_, _, _, value) => IsInt32(value)
       case Note(_, _, _, duration, pitch) => IsInt32(duration) && IsInt32(pitch)
       case Track(_, _, channel, duration, _) => IsInt32(duration) && 0 <= channel < k
  }

  /** A track whose block reads back as track number `k`. */
  predicate WritableTrack(t: TrackPanel, k: int) {
    IsInt32(k) && IsInt32(t.instrument) && IsInt32(t.volume) && IsInt32(t.length) && IsInt32(|t.events|)
    && AllWritable(t.events, k)
  }

  /** Every event of `es` is writable with `k` tracks to refer to. */
  predicate AllWritable(es: seq<Option<Event>>, k: int) {
    es == [] || (WritableEvent(es[0], k) && AllWritable(es[1..], k))
  }

  /** Everything `FileText` writes reads back, given sequencers for the new panels. */
  predicate WritableFile(tempo: int, ts: seq<TrackPanel>, song: SongState, supply: seq<Sequencer>) {
    && IsInt32(tempo) && IsInt32(|ts|) && |ts| <= |supply|
    && (forall k :: 0 <= k < |ts| ==> WritableTrack(ts[k], k))
    && IsInt32(song.length) && IsInt32(|song.events|)
    && AllWritable(song.events, |ts|)
  }

  /** The event as read back: a track event refers to the sequencer of the panel its channel names. */
  function Reload(e: Event, seqs: seq<Sequencer>): Event {
    if e.Track? && 0 <= e.channel < |seqs| then e.(sequence := seqs[e.channel]) else e
  }

  function ReloadAll(es: seq<Option<Event>>, seqs: seq<Sequencer>): (r: seq<Option<Event>>)
    ensures |r| == |es|
  {
    if es == [] then [] else [if es[0].Some? then Some(Reload(es[0].value, seqs)) else None] + ReloadAll(es[1..], seqs)
  }

  /** Reading back changes nothing but the sequencer a track event refers to. */
  lemma ReloadKeepsFields(e: Event, seqs: seq<Sequencer>)
    ensures Reload(e, seqs).time == e.time && Reload(e, seqs).name == e.name
    ensures Reload(e, seqs).channel == e.channel && Rank(Reload(e, seqs)) == Rank(e)
    ensures !e.Track? ==> Reload(e, seqs) == e
    ensures e.Track? ==> Reload(e, seqs).duration == e.duration
    ensures e.Track? && 0 <= e.channel < |seqs| && e.sequence == seqs[e.channel] ==> Reload(e, seqs) == e
  {
  }

  /** The sequencers of the loaded panels, in order. */
  function SequencersOf(loaded: seq<TrackPanel>): (r: seq<Sequencer>)
    ensures |r| == |loaded| && forall j :: 0 <= j < |loaded| ==> r[j] == loaded[j].sequencer
  {
    if loaded == [] then [] else SequencersOf(loaded[..|loaded| - 1]) + [loaded[|loaded| - 1].sequencer]
  }

  /** The tracks as `readFile` loads them back from `FileText`. */
  function ReloadTracks(ts: seq<TrackPanel>, tempo: int, supply: seq<Sequencer>): (r: seq<TrackPanel>)
    requires |ts| <= |supply|
    ensures |r| == |ts|
    ensures forall k :: 0 <= k < |ts| ==> r[k] == TrackPanel(k, ts[k].instrument, ts[k].volume, ts[k].length,
      tempo, ReloadAll(ts[k].events, supply), supply[k])
  {
    if ts == [] then []
    else
      var k := |ts| - 1;
      ReloadTracks(ts[..k], tempo, supply)
        + [TrackPanel(k, ts[k].instrument, ts[k].volume, ts[k].length, tempo, ReloadAll(ts[k].events, supply), supply[k])]
  }

  /** `chunk` sits in `toks` at position `pos`. */
  predicate At(toks: seq<string>, pos: nat, chunk: seq<string>) {
    pos + |chunk| <= |toks| && toks[pos..pos + |chunk|] == chunk
  }

  lemma AtSplit(toks: seq<string>, pos: nat, a: seq<string>, b: seq<string>)
    requires At(toks, pos, a + b)
    ensures At(toks, pos, a) && At(toks, pos + |a|, b)
  {
    assert toks[pos..pos + |a|] == (a + b)[..|a|];
    assert toks[pos + |a|..pos + |a| + |b|] == (a + b)[|a|..];
  }

  lemma IntAtOfIntToString(toks: seq<string>, pos: nat, x: int)
    requires pos < |toks| && toks[pos] == IntToString(x) && IsInt32(x)
    ensures IntAt(toks, pos) == Ok(Parsed(x, pos + 1))
  {
    ParseIntOfIntToString(x);
  }

  /** The fields `readAudioEventBlock` reads from the record `writeAudioEventBlock` writes for `e`. */
  function FieldsOf(e: Event): (f: RecordFields)
    ensures f.name == e.name && f.time == e.time && f.channel == e.channel
  {
    match e
    case Change(time, name, channel, value) => RecordFields("change", name, time, channel, value, 0)
    case Note(time, name, channel, duration, pitch) => RecordFields("note", name, time, channel, pitch, duration)
    case Track(time, name, channel, duration, _) => RecordFields("track", name, time, channel, 0, duration)
  }

  /** The record of a writable event holds its fields, in the order they are read. */
  lemma RecordOfFields(e: Event, k: int)
    requires WritableEvent(Some(e), k)
    ensures var f := FieldsOf(e);
      && EventRecord(Some(e)) == [f.tag, f.name, IntToString(f.time), IntToString(f.channel), IntToString(f.value),
                                  IntToString(f.duration)]
      && IsInt32(f.time) && IsInt32(f.channel) && IsInt32(f.value) && IsInt32(f.duration)
  {
  }

  /** The six fields of a written record read back as written. */
  lemma RecordAtOfRecord(toks: seq<string>, pos: nat, e: Event, k: int)
    requires WritableEvent(Some(e), k) && At(toks, pos, EventRecord(Some(e)))
    ensures RecordAt(toks, pos) == Ok(Parsed(FieldsOf(e), pos + 6))
  {
    var f := FieldsOf(e);
    RecordOfFields(e, k);
    var window := toks[pos..pos + 6];
    assert window == [f.tag, f.name, IntToString(f.time), IntToString(f.channel), IntToString(f.value),
                      IntToString(f.duration)];
    assert toks[pos] == window[0] && toks[pos + 1] == window[1] && toks[pos + 2] == window[2];
    assert toks[pos + 3] == window[3] && toks[pos + 4] == window[4] && toks[pos + 5] == window[5];
    IntAtOfIntToString(toks, pos + 2, f.time);
    IntAtOfIntToString(toks, pos + 3, f.channel);
    IntAtOfIntToString(toks, pos + 4, f.value);
    IntAtOfIntToString(toks, pos + 5, f.duration);
  }

  /** The fields of a writable event make that event again, a track event taking its panel's sequencer. */
  lemma EventOfFieldsOf(e: Event, loaded: seq<TrackPanel>)
    requires WritableEvent(Some(e), |loaded|)
    ensures EventOf(FieldsOf(e), loaded) == Ok(Some(Reload(e, SequencersOf(loaded))))
  {
  }

  /**
   * Event round trip: a written record reads back as the same variant with
   * the same name, time, channel and payload, its sequencer (for a track
   * event) being that of the panel its channel names.
   */
  lemma ParseEventOfRecord(toks: seq<string>, pos: nat, e: Event, loaded: seq<TrackPanel>)
    requires WritableEvent(Some(e), |loaded|) && At(toks, pos, EventRecord(Some(e)))
    ensures ParseEvent(toks, pos, loaded) == Ok(Parsed(Some(Reload(e, SequencersOf(loaded))), pos + 6))
  {
    RecordAtOfRecord(toks, pos, e, |loaded|);
    EventOfFieldsOf(e, loaded);
  }

  /** A record with an unknown tag reads as `null` and still consumes six tokens. */
  lemma UnknownTagIsNull(toks: seq<string>, pos: nat, loaded: seq<TrackPanel>)
    requires RecordAt(toks, pos).Ok?
    requires RecordAt(toks, pos).value.value.tag !in {"change", "note", "track"}
    ensures ParseEvent(toks, pos, loaded) == Ok(Parsed(None, pos + 6))
  {
  }

  /** A track record naming no loaded track makes the read fail with an out-of-bounds error. */
  lemma DanglingTrackFails(toks: seq<string>, pos: nat, loaded: seq<TrackPanel>)
    requires RecordAt(toks, pos).Ok? && RecordAt(toks, pos).value.value.tag == "track"
    requires !(0 <= RecordAt(toks, pos).value.value.channel < |loaded|)
    ensures ParseEvent(toks, pos, loaded) == Err(IndexOutOfBounds)
  {
  }

  lemma {:induction false} EventRecordsLength(es: seq<Option<Event>>, k: int)
    requires AllWritable(es, k)
    ensures |EventRecords(es)| == 6 * |es|
  {
    if es != [] {
      EventRecordsLength(es[1..], k);
    }
  }

  /** How the records of a non-empty `es` split into the first one and the rest. */
  lemma RecordsSplit(toks: seq<string>, pos: nat, es: seq<Option<Event>>, k: int)
    requires es != [] && AllWritable(es, k) && At(toks, pos, EventRecords(es))
    ensures es[0] == Some(es[0].value) && WritableEvent(es[0], k) && At(toks, pos, EventRecord(es[0]))
    ensures AllWritable(es[1..], k) && At(toks, pos + 6, EventRecords(es[1..]))
  {
    AtSplit(toks, pos, EventRecord(es[0]), EventRecords(es[1..]));
  }

  lemma ReloadAllCons(es: seq<Option<Event>>, seqs: seq<Sequencer>)
    requires es != [] && es[0].Some?
    ensures ReloadAll(es, seqs) == [Some(Reload(es[0].value, seqs))] + ReloadAll(es[1..], seqs)
  {
  }

  /** Each event of `es` is writable and its record sits in turn in `toks` from `pos` on. */
  predicate RecordsAt(toks: seq<string>, pos: nat, es: seq<Option<Event>>, k: int)
    decreases |es|
  {
    es == [] || (es[0].Some? && WritableEvent(es[0], k) && At(toks, pos, EventRecord(es[0]))
                 && RecordsAt(toks, pos + 6, es[1..], k))
  }

  lemma {:induction false} RecordsAtOfRecords(toks: seq<string>, pos: nat, es: seq<Option<Event>>, k: int)
    requires AllWritable(es, k) && At(toks, pos, EventRecords(es))
    ensures RecordsAt(toks, pos, es, k)
    decreases |es|
  {
    if es != [] {
      RecordsSplit(toks, pos, es, k);
      RecordsAtOfRecords(toks, pos + 6, es[1..], k);
    }
  }

  /** Reading one record at a time from `pos` on gives the events `xs`, six tokens each. */
  predicate ReadsAs(toks: seq<string>, pos: nat, xs: seq<Option<Event>>, loaded: seq<TrackPanel>)
    decreases |xs|, 1
  {
    xs == [] || ReadsFirst(toks, pos, xs, loaded)
  }

  /** The record at `pos` reads as the first of `xs`, and the records after it as the others. */
  predicate ReadsFirst(toks: seq<string>, pos: nat, xs: seq<Option<Event>>, loaded: seq<TrackPanel>)
    requires xs != []
    decreases |xs|, 0
  {
    ParseEvent(toks, pos, loaded) == Ok(Parsed(xs[0], pos + 6)) && ReadsAs(toks, pos + 6, xs[1..], loaded)
  }

  lemma ReadsAsStep(toks: seq<string>, pos: nat, xs: seq<Option<Event>>, loaded: seq<TrackPanel>)
    requires xs != []
    ensures ReadsAs(toks, pos, xs, loaded) <==>
      ParseEvent(toks, pos, loaded) == Ok(Parsed(xs[0], pos + 6)) && ReadsAs(toks, pos + 6, xs[1..], loaded)
  {
    assert ReadsAs(toks, pos, xs, loaded) == ReadsFirst(toks, pos, xs, loaded);
  }

  lemma {:induction false} ReadsAsOfRecordsAt(toks: seq<string>, pos: nat, es: seq<Option<Event>>,
                                              loaded: seq<TrackPanel>)
    requires RecordsAt(toks, pos, es, |loaded|)
    ensures ReadsAs(toks, pos, ReloadAll(es, SequencersOf(loaded)), loaded)
    decreases |es|
  {
    if es != [] {
      ReadsAsOfRecordsAt(toks, pos + 6, es[1..], loaded);
      ParseEventOfRecord(toks, pos, es[0].value, loaded);
      ReloadAllCons(es, SequencersOf(loaded));
      ReadsAsStep(toks, pos, ReloadAll(es, SequencersOf(loaded)), loaded);
    }
  }

  lemma {:induction false} ParseEventsOfReadsAs(toks: seq<string>, pos: nat, xs: seq<Option<Event>>,
                                                loaded: seq<TrackPanel>, n: int)
    requires n == |xs| && ReadsAs(toks, pos, xs, loaded)
    ensures ParseEvents(toks, pos, n, loaded) == Ok(Parsed(xs, pos + 6 * n))
    decreases |xs|
  {
    if xs != [] {
      ReadsAsStep(toks, pos, xs, loaded);
      ParseEventsOfReadsAs(toks, pos + 6, xs[1..], loaded, n - 1);
      ParseEventsStep(toks, pos, n, loaded);
      assert [xs[0]] + xs[1..] == xs;
    }
  }

  lemma ParseEventsOfReloaded(toks: seq<string>, pos: nat, es: seq<Option<Event>>, loaded: seq<TrackPanel>)
    requires ReadsAs(toks, pos, ReloadAll(es, SequencersOf(loaded)), loaded)
    ensures ParseEvents(toks, pos, |es|, loaded) == Ok(Parsed(ReloadAll(es, SequencersOf(loaded)), pos + 6 * |es|))
  {
    ParseEventsOfReadsAs(toks, pos, ReloadAll(es, SequencersOf(loaded)), loaded, |es|);
  }

  /** A run of written records reads back record by record. */
  lemma ParseEventsOfRecords(toks: seq<string>, pos: nat, es: seq<Option<Event>>, loaded: seq<TrackPanel>)
    requires AllWritable(es, |loaded|) && At(toks, pos, EventRecords(es))
    ensures ParseEvents(toks, pos, |es|, loaded) == Ok(Parsed(ReloadAll(es, SequencersOf(loaded)), pos + 6 * |es|))
  {
    RecordsAtOfRecords(toks, pos, es, |loaded|);
    ReadsAsOfRecordsAt(toks, pos, es, loaded);
    ParseEventsOfReloaded(toks, pos, es, loaded);
  }

  /** Reading back with more panels loaded changes nothing when every reference is to the first `k`. */
  lemma {:induction false} ReloadAllPrefix(es: seq<Option<Event>>, seqs: seq<Sequencer>, k: nat)
    requires AllWritable(es, k) && k <= |seqs|
    ensures ReloadAll(es, seqs[..k]) == ReloadAll(es, seqs)
  {
    if es != [] {
      ReloadAllPrefix(es[1..], seqs, k);
    }
  }

  /** The header of a written track block reads back as written. */
  lemma TrackHeaderAtOfHeader(toks: seq<string>, pos: nat, t: TrackPanel, i: int)
    requires WritableTrack(t, i) && At(toks, pos, TrackHeader(t, i))
    ensures TrackHeaderAt(toks, pos) == Ok(Parsed(TrackFields(i, t.instrument, t.volume, t.length, |t.events|), pos + 6))
  {
    var window := toks[pos..pos + 6];
    assert window == TrackHeader(t, i);
    assert toks[pos] == window[0] && toks[pos + 1] == window[1] && toks[pos + 2] == window[2];
    assert toks[pos + 3] == window[3] && toks[pos + 4] == window[4] && toks[pos + 5] == window[5];
    IntAtOfIntToString(toks, pos + 1, i);
    IntAtOfIntToString(toks, pos + 2, t.instrument);
    IntAtOfIntToString(toks, pos + 3, t.volume);
    IntAtOfIntToString(toks, pos + 4, t.length);
    IntAtOfIntToString(toks, pos + 5, |t.events|);
  }

  /** The sequencers of the reloaded panels are the first ones of the supply. */
  lemma {:induction false} SequencersOfReloadTracks(ts: seq<TrackPanel>, tempo: int, supply: seq<Sequencer>)
    requires |ts| <= |supply|
    ensures SequencersOf(ReloadTracks(ts, tempo, supply)) == supply[..|ts|]
  {
    var r := ReloadTracks(ts, tempo, supply);
    var s := SequencersOf(r);
    assert forall j :: 0 <= j < |ts| ==> s[j] == r[j].sequencer == supply[j];
  }

  /** Reloading one more track appends its panel. */
  lemma ReloadTracksSnoc(ts: seq<TrackPanel>, k: nat, tempo: int, supply: seq<Sequencer>)
    requires k < |ts| <= |supply|
    ensures ReloadTracks(ts[..k + 1], tempo, supply) == ReloadTracks(ts[..k], tempo, supply)
      + [TrackPanel(k, ts[k].instrument, ts[k].volume, ts[k].length, tempo, ReloadAll(ts[k].events, supply), supply[k])]
  {
    assert ts[..k + 1][..k] == ts[..k];
  }

  /** The number of lines of the block of a writable track. */
  function BlockLength(t: TrackPanel): nat {
    6 + 6 * |t.events|
  }

  lemma TrackBlockLength(t: TrackPanel, k: int)
    requires WritableTrack(t, k)
    ensures |TrackBlock(t, k)| == BlockLength(t)
  {
    EventRecordsLength(t.events, k);
  }

  /** The number of lines of the blocks of tracks `k` onwards. */
  function BlocksLengthFrom(ts: seq<TrackPanel>, k: nat): nat
    decreases |ts| - k
  {
    if k >= |ts| then 0 else BlockLength(ts[k]) + BlocksLengthFrom(ts, k + 1)
  }

  /** The blocks before track `k` and those from it on together are all the blocks. */
  lemma {:induction false} BlocksLengthFromIsLength(ts: seq<TrackPanel>, k: nat)
    requires k <= |ts| && forall i :: 0 <= i < |ts| ==> WritableTrack(ts[i], i)
    ensures |TrackBlocks(ts[..k])| + BlocksLengthFrom(ts, k) == |TrackBlocks(ts)|
    decreases |ts| - k
  {
    if k == |ts| {
      assert ts[..k] == ts;
    } else {
      BlocksLengthFromIsLength(ts, k + 1);
      TrackBlocksSnoc(ts, k);
      TrackBlockLength(ts[k], k);
    }
  }

  /**
   * The header of the block at `pos` reads as that of track `k`, and its
   * records one by one as `t`'s events, reloaded.
   */
  predicate TrackReads(toks: seq<string>, pos: nat, t: TrackPanel, k: int, loaded: seq<TrackPanel>,
                       supply: seq<Sequencer>)
  {
    && TrackHeaderAt(toks, pos) == Ok(Parsed(TrackFields(k, t.instrument, t.volume, t.length, |t.events|), pos + 6))
    && ReadsAs(toks, pos + 6, ReloadAll(t.events, supply), loaded)
  }

  /** From `pos` on, the blocks of tracks `k` onwards read as those tracks, one after the other. */
  predicate TracksRead(toks: seq<string>, pos: nat, ts: seq<TrackPanel>, k: nat, tempo: int, supply: seq<Sequencer>)
    requires |ts| <= |supply|
    decreases |ts| - k, 1
  {
    k >= |ts| || TrackAndNextRead(toks, pos, ts, k, tempo, supply)
  }

  /** The block of track `k < |ts|` reads as that track, and the blocks after it as the later tracks. */
  predicate TrackAndNextRead(toks: seq<string>, pos: nat, ts: seq<TrackPanel>, k: nat, tempo: int, supply: seq<Sequencer>)
    requires k < |ts| <= |supply|
    decreases |ts| - k, 0
  {
    && TrackReads(toks, pos, ts[k], k, ReloadTracks(ts[..k], tempo, supply), supply)
    && TracksRead(toks, pos + BlockLength(ts[k]), ts, k + 1, tempo, supply)
  }

  /**
   * A block that reads as track `k` adds its panel to the `k` loaded ones
   * (giving `next`) and moves past the block (to `q`).
   */
  lemma LoadTracksStep(toks: seq<string>, pos: nat, n: int, t: TrackPanel, k: nat, loaded: seq<TrackPanel>,
                       tempo: int, supply: seq<Sequencer>, next: seq<TrackPanel>, q: nat)
    requires n > 0 && |loaded| == k < |supply| && TrackReads(toks, pos, t, k, loaded, supply)
    requires next == loaded + [TrackPanel(k, t.instrument, t.volume, t.length, tempo, ReloadAll(t.events, supply), supply[k])]
    requires q == pos + BlockLength(t)
    ensures LoadTracks(toks, pos, n, loaded, tempo, supply) == LoadTracks(toks, q, n - 1, next, tempo, supply)
  {
    LoadTrackOfReads(toks, pos, t, k, loaded, tempo, supply, next, q);
    LoadTracksUnfold(toks, pos, n, loaded, tempo, supply);
  }

  /** A block that reads as track `k` is loaded as its panel. */
  lemma LoadTrackOfReads(toks: seq<string>, pos: nat, t: TrackPanel, k: nat, loaded: seq<TrackPanel>,
                         tempo: int, supply: seq<Sequencer>, next: seq<TrackPanel>, q: nat)
    requires |loaded| == k < |supply| && TrackReads(toks, pos, t, k, loaded, supply)
    requires next == loaded + [TrackPanel(k, t.instrument, t.volume, t.length, tempo, ReloadAll(t.events, supply), supply[k])]
    requires q == pos + BlockLength(t)
    ensures LoadTrack(toks, pos, loaded, tempo, supply) == Progress(next, true, q)
  {
    ParseEventsOfReadsAs(toks, pos + 6, ReloadAll(t.events, supply), loaded, |t.events|);
  }

  /** From block `k` on, the blocks that read as their tracks load the reloaded tracks. */
  lemma {:induction false} LoadTracksOfTracksRead(toks: seq<string>, pos: nat, ts: seq<TrackPanel>, k: nat, tempo: int,
                                                  supply: seq<Sequencer>)
    requires k <= |ts| <= |supply| && TracksRead(toks, pos, ts, k, tempo, supply)
    ensures LoadTracks(toks, pos, |ts| - k, ReloadTracks(ts[..k], tempo, supply), tempo, supply)
      == Progress(ReloadTracks(ts, tempo, supply), true, pos + BlocksLengthFrom(ts, k))
    decreases |ts| - k
  {
    if k == |ts| {
      assert ts[..k] == ts;
    } else {
      var loaded := ReloadTracks(ts[..k], tempo, supply);
      var next := ReloadTracks(ts[..k + 1], tempo, supply);
      var q := pos + BlockLength(ts[k]);
      TracksReadUncons(toks, pos, ts, k, tempo, supply, q);
      ReloadTracksSnoc(ts, k, tempo, supply);
      LoadTracksStep(toks, pos, |ts| - k, ts[k], k, loaded, tempo, supply, next, q);
      LoadTracksOfTracksRead(toks, q, ts, k + 1, tempo, supply);
    }
  }

  /** Blocks from `k` on that read as their tracks begin with the block of track `k`, followed by the others. */
  lemma TracksReadUncons(toks: seq<string>, pos: nat, ts: seq<TrackPanel>, k: nat, tempo: int, supply: seq<Sequencer>,
                         q: nat)
    requires k < |ts| <= |supply| && q == pos + BlockLength(ts[k])
    requires TracksRead(toks, pos, ts, k, tempo, supply)
    ensures TrackReads(toks, pos, ts[k], k, ReloadTracks(ts[..k], tempo, supply), supply)
    ensures TracksRead(toks, q, ts, k + 1, tempo, supply)
  {
    assert TrackAndNextRead(toks, pos, ts, k, tempo, supply);
  }

  /** The block of `t`, written as track `k`, reads back with the `k` tracks before it loaded. */
  lemma TrackReadsOfBlock(toks: seq<string>, pos: nat, t: TrackPanel, k: nat, loaded: seq<TrackPanel>,
                          supply: seq<Sequencer>)
    requires WritableTrack(t, k) && |loaded| == k <= |supply| && SequencersOf(loaded) == supply[..k]
    requires At(toks, pos, TrackBlock(t, k))
    ensures TrackReads(toks, pos, t, k, loaded, supply)
  {
    AtSplit(toks, pos, TrackHeader(t, k), EventRecords(t.events));
    TrackHeaderAtOfHeader(toks, pos, t, k);
    RecordsAtOfRecords(toks, pos + 6, t.events, k);
    ReadsAsOfRecordsAt(toks, pos + 6, t.events, loaded);
    ReloadAllPrefix(t.events, supply, k);
  }

  /** `a`, the beginning of `b`, sits where `b` does. */
  lemma AtPrefix(toks: seq<string>, pos: nat, a: seq<string>, b: seq<string>)
    requires At(toks, pos, b) && a <= b
    ensures At(toks, pos, a)
  {
    assert toks[pos..pos + |a|] == b[..|a|];
  }

  /** The blocks of the first `k` tracks sit where all blocks start. */
  lemma PrefixBlocksAt(toks: seq<string>, pos: nat, ts: seq<TrackPanel>, k: nat)
    requires k <= |ts| && At(toks, pos, TrackBlocks(ts))
    ensures At(toks, pos, TrackBlocks(ts[..k]))
  {
    TrackBlocksPrefix(ts, k);
    AtPrefix(toks, pos, TrackBlocks(ts[..k]), TrackBlocks(ts));
  }

  /** The last of the blocks of `ts[..j + 1]` is that of track `j`, after the blocks before it. */
  lemma LastBlockAt(toks: seq<string>, pos: nat, ts: seq<TrackPanel>, j: nat, q: nat)
    requires j < |ts| && At(toks, pos, TrackBlocks(ts[..j + 1])) && q == pos + |TrackBlocks(ts[..j])|
    ensures At(toks, q, TrackBlock(ts[j], j))
  {
    TrackBlocksSnoc(ts, j);
    AtSplit(toks, pos, TrackBlocks(ts[..j]), TrackBlock(ts[j], j));
  }

  /** The block of track `k` sits right after the blocks before it. */
  lemma BlockAt(toks: seq<string>, pos: nat, ts: seq<TrackPanel>, k: nat, q: nat)
    requires k < |ts| && At(toks, pos, TrackBlocks(ts)) && q == pos + |TrackBlocks(ts[..k])|
    ensures At(toks, q, TrackBlock(ts[k], k))
  {
    PrefixBlocksAt(toks, pos, ts, k + 1);
    LastBlockAt(toks, pos, ts, k, q);
  }

  /** The written blocks from track `k` on read as those tracks. */
  lemma {:induction false} TracksReadOfBlocks(toks: seq<string>, pos0: nat, pos: nat, ts: seq<TrackPanel>, k: nat,
                                              tempo: int, supply: seq<Sequencer>)
    requires k <= |ts| <= |supply| && (forall j :: 0 <= j < |ts| ==> WritableTrack(ts[j], j))
    requires At(toks, pos0, TrackBlocks(ts)) && pos == pos0 + |TrackBlocks(ts[..k])|
    ensures TracksRead(toks, pos, ts, k, tempo, supply)
    decreases |ts| - k
  {
    if k < |ts| {
      var q := pos + BlockLength(ts[k]);
      NthTrackReads(toks, pos0, pos, ts, k, tempo, supply);
      NextBlockStart(pos0, pos, ts, k, q);
      TracksReadOfBlocks(toks, pos0, q, ts, k + 1, tempo, supply);
      TracksReadCons(toks, pos, ts, k, tempo, supply, q);
    }
  }

  /** The block of track `k` of the written blocks reads as that track. */
  lemma NthTrackReads(toks: seq<string>, pos0: nat, pos: nat, ts: seq<TrackPanel>, k: nat, tempo: int,
                      supply: seq<Sequencer>)
    requires k < |ts| <= |supply| && (forall j :: 0 <= j < |ts| ==> WritableTrack(ts[j], j))
    requires At(toks, pos0, TrackBlocks(ts)) && pos == pos0 + |TrackBlocks(ts[..k])|
    ensures TrackReads(toks, pos, ts[k], k, ReloadTracks(ts[..k], tempo, supply), supply)
  {
    var loaded := ReloadTracks(ts[..k], tempo, supply);
    assert At(toks, pos, TrackBlock(ts[k], k)) by {
      BlockAt(toks, pos0, ts, k, pos);
    }
    assert SequencersOf(loaded) == supply[..k] by {
      SequencersOfReloadTracks(ts[..k], tempo, supply);
    }
    TrackReadsOfBlock(toks, pos, ts[k], k, loaded, supply);
  }

  /** The block after that of track `k` starts where the blocks of the first `k + 1` tracks end. */
  lemma NextBlockStart(pos0: nat, pos: nat, ts: seq<TrackPanel>, k: nat, q: nat)
    requires k < |ts| && (forall j :: 0 <= j < |ts| ==> WritableTrack(ts[j], j))
    requires pos == pos0 + |TrackBlocks(ts[..k])| && q == pos + BlockLength(ts[k])
    ensures q == pos0 + |TrackBlocks(ts[..k + 1])|
  {
    TrackBlocksSnoc(ts, k);
    TrackBlockLength(ts[k], k);
  }

  /** Track `k` reading at `pos`, and the later ones right after it, is the blocks from `k` on reading. */
  lemma TracksReadCons(toks: seq<string>, pos: nat, ts: seq<TrackPanel>, k: nat, tempo: int, supply: seq<Sequencer>,
                       q: nat)
    requires k < |ts| <= |supply| && q == pos + BlockLength(ts[k])
    requires TrackReads(toks, pos, ts[k], k, ReloadTracks(ts[..k], tempo, supply), supply)
    requires TracksRead(toks, q, ts, k + 1, tempo, supply)
    ensures TracksRead(toks, pos, ts, k, tempo, supply)
  {
    assert TrackAndNextRead(toks, pos, ts, k, tempo, supply);
  }

  /** Track round trip: the written blocks of `ts` load as the reloaded tracks, ending after the blocks. */
  lemma LoadTracksOfBlocks(toks: seq<string>, pos: nat, ts: seq<TrackPanel>, tempo: int, supply: seq<Sequencer>)
    requires |ts| <= |supply| && (forall j :: 0 <= j < |ts| ==> WritableTrack(ts[j], j))
    requires At(toks, pos, TrackBlocks(ts))
    ensures LoadTracks(toks, pos, |ts|, [], tempo, supply)
      == Progress(ReloadTracks(ts, tempo, supply), true, pos + |TrackBlocks(ts)|)
  {
    assert ts[..0] == [];
    TracksReadOfBlocks(toks, pos, pos, ts, 0, tempo, supply);
    LoadTracksOfTracksRead(toks, pos, ts, 0, tempo, supply);
    BlocksLengthFromIsLength(ts, 0);
  }

  /** The three header lines of a song block read back as written. */
  lemma SongHeaderAtOfHeader(toks: seq<string>, pos: nat, length: int, count: int)
    requires IsInt32(length) && IsInt32(count)
    requires At(toks, pos, ["song", IntToString(length), IntToString(count)])
    ensures SongHeaderAt(toks, pos) == Ok(Parsed(SongFields(length, count), pos + 3))
  {
    var header := ["song", IntToString(length), IntToString(count)];
    assert toks[pos] == header[0] && toks[pos + 1] == header[1] && toks[pos + 2] == header[2];
    IntAtOfIntToString(toks, pos + 1, length);
    IntAtOfIntToString(toks, pos + 2, count);
  }

  /**
   * Song round trip: the block of `song` sets the length and tempo of the
   * song being read and gives it `song`'s events, reloaded against the
   * tracks loaded before it.
   */
  lemma LoadSongOfBlock(toks: seq<string>, pos: nat, song: SongState, loaded: seq<TrackPanel>, tempo: int,
                        song0: SongState)
    requires IsInt32(song.length) && IsInt32(|song.events|) && AllWritable(song.events, |loaded|)
    requires At(toks, pos, SongBlock(song))
    ensures LoadSong(toks, pos, loaded, tempo, song0)
      == song0.(length := song.length, tempo := tempo, events := ReloadAll(song.events, SequencersOf(loaded)))
  {
    AtSplit(toks, pos, ["song", IntToString(song.length), IntToString(|song.events|)], EventRecords(song.events));
    SongHeaderAtOfHeader(toks, pos, song.length, |song.events|);
    ParseEventsOfRecords(toks, pos + 3, song.events, loaded);
  }

  /** Where the parts of a file text sit. */
  lemma FileTextAt(tempo: int, ts: seq<TrackPanel>, song: SongState)
    ensures At(FileText(tempo, ts, song), 2, TrackBlocks(ts))
    ensures At(FileText(tempo, ts, song), 2 + |TrackBlocks(ts)|, SongBlock(song))
    ensures FileText(tempo, ts, song)[0] == IntToString(tempo) && FileText(tempo, ts, song)[1] == IntToString(|ts|)
  {
    var toks := FileText(tempo, ts, song);
    var blocks := TrackBlocks(ts);
    assert toks[2..2 + |blocks|] == blocks;
    assert toks[2 + |blocks|..2 + |blocks| + |SongBlock(song)|] == SongBlock(song);
  }

  /** The song block of a writable file reads back against the reloaded tracks. */
  lemma LoadSongOfFile(toks: seq<string>, pos: nat, tempo: int, ts: seq<TrackPanel>, song: SongState,
                       supply: seq<Sequencer>, song0: SongState)
    requires WritableFile(tempo, ts, song, supply) && At(toks, pos, SongBlock(song))
    ensures LoadSong(toks, pos, ReloadTracks(ts, tempo, supply), tempo, song0)
      == song0.(length := song.length, tempo := tempo, events := ReloadAll(song.events, supply))
  {
    var loaded := ReloadTracks(ts, tempo, supply);
    LoadSongOfBlock(toks, pos, song, loaded, tempo, song0);
    SequencersOfReloadTracks(ts, tempo, supply);
    ReloadAllPrefix(song.events, supply, |ts|);
  }

  /**
   * File round trip: `readFile` on the text of a writable file returns its
   * tempo, loads its tracks in order with fresh sequencers (track
   * references redirected to them) and restores the song's length, tempo
   * and events; nothing of the song before the call survives.
   */
  lemma LoadFileOfFileText(tempo: int, ts: seq<TrackPanel>, song: SongState, supply: seq<Sequencer>,
                           song0: SongState)
    requires WritableFile(tempo, ts, song, supply)
    ensures LoadFile(FileText(tempo, ts, song), supply, song0)
      == FileLoad(tempo, ReloadTracks(ts, tempo, supply), SongState(song.length, tempo, ReloadAll(song.events, supply)))
  {
    var toks := FileText(tempo, ts, song);
    FileTextAt(tempo, ts, song);
    IntAtOfIntToString(toks, 0, tempo);
    IntAtOfIntToString(toks, 1, |ts|);
    LoadTracksOfBlocks(toks, 2, ts, tempo, supply);
    LoadSongOfFile(toks, 2 + |TrackBlocks(ts)|, tempo, ts, song, supply, song0.(events := []));
  }

  // ---------------------------------------------------------------------
  // The song block as `writeFile` writes it
  // ---------------------------------------------------------------------

  /** An event writable with `k` tracks to refer to stays writable with more. */
  lemma {:induction false} AllWritableWiden(es: seq<Option<Event>>, k: int, k': int)
    requires AllWritable(es, k) && k <= k'
    ensures AllWritable(es, k')
    decreases |es|
  {
    if es != [] {
      AllWritableWiden(es[1..], k, k');
    }
  }

  lemma {:induction false} AllWritableConcat(a: seq<Option<Event>>, b: seq<Option<Event>>, k: int)
    requires AllWritable(a, k) && AllWritable(b, k)
    ensures AllWritable(a + b, k)
    decreases |a|
  {
    if a != [] {
      assert (a + b)[1..] == a[1..] + b;
      AllWritableConcat(a[1..], b, k);
    } else {
      assert a + b == b;
    }
  }

  /** The events of writable tracks are writable in a block written after all of them. */
  lemma {:induction false} AllTrackEventsWritable(ts: seq<TrackPanel>, k: int)
    requires |ts| <= k && forall j :: 0 <= j < |ts| ==> WritableTrack(ts[j], j)
    ensures AllWritable(AllTrackEvents(ts), k)
    decreases |ts|
  {
    if ts != [] {
      var last := |ts| - 1;
      AllTrackEventsWritable(ts[..last], k);
      AllWritableWiden(ts[last].events, last, k);
      AllWritableConcat(AllTrackEvents(ts[..last]), ts[last].events, k);
    }
  }

  /**
   * `readFile` on the text `writeFile` produces: the tracks come back, but
   * the song comes back with the number of tracks as its length and the
   * events of all tracks, one track after the other, as its events,
   * whatever the song held.
   */
  lemma LoadFileOfFileTextAsWritten(tempo: int, ts: seq<TrackPanel>, supply: seq<Sequencer>, song0: SongState)
    requires IsInt32(tempo) && IsInt32(|ts|) && |ts| <= |supply| && IsInt32(|AllTrackEvents(ts)|)
    requires forall k :: 0 <= k < |ts| ==> WritableTrack(ts[k], k)
    ensures LoadFile(FileTextAsWritten(tempo, ts), supply, song0)
      == FileLoad(tempo, ReloadTracks(ts, tempo, supply),
                  SongState(|ts|, tempo, ReloadAll(AllTrackEvents(ts), supply)))
  {
    var stored := SongState(|ts|, tempo, AllTrackEvents(ts));
    assert SongBlockAsWritten(ts, |ts|) == SongBlock(stored);
    assert FileTextAsWritten(tempo, ts) == FileText(tempo, ts, stored);
    AllTrackEventsWritable(ts, |ts|);
    LoadFileOfFileText(tempo, ts, stored, supply, song0);
  }

  /**
   * A song of length 16 saved with no tracks: `writeFile`'s text reads
   * back as a song of length 0, the corrected text as one of length 16.
   */
  lemma SongLengthLostAsWritten(song0: SongState)
    ensures LoadFile(FileTextAsWritten(120, []), [], song0).song.length == 0
    ensures LoadFile(FileText(120, [], SongState(16, 120, [])), [], song0).song.length == 16
  {
    LoadFileOfFileTextAsWritten(120, [], [], song0);
    LoadFileOfFileText(120, [], SongState(16, 120, []), [], song0);
  }

  // ---------------------------------------------------------------------
  // The text
  // ---------------------------------------------------------------------

  /** Every line is one token. */
  predicate AllTokens(lines: seq<string>) {
    forall i :: 0 <= i < |lines| ==> IsToken(lines[i])
  }

  lemma AllTokensConcat(a: seq<string>, b: seq<string>)
    requires AllTokens(a) && AllTokens(b)
    ensures AllTokens(a + b)
  {
    forall i | 0 <= i < |a + b|
      ensures IsToken((a + b)[i])
    {
      if i >= |a| {
        assert (a + b)[i] == b[i - |a|];
      }
    }
  }

  lemma EventRecordIsTokens(e: Event, k: int)
    requires WritableEvent(Some(e), k)
    ensures AllTokens(EventRecord(Some(e)))
  {
    IntToStringIsToken(e.time);
    IntToStringIsToken(e.channel);
    IntToStringIsToken(if e.Note? then e.pitch else if e.Change? then e.value else 0);
    IntToStringIsToken(if e.Change? then 0 else e.duration);
  }

  lemma {:induction false} EventRecordsAreTokens(es: seq<Option<Event>>, k: int)
    requires AllWritable(es, k)
    ensures AllTokens(EventRecords(es))
    decreases |es|
  {
    if es != [] {
      EventRecordsAreTokens(es[1..], k);
      EventRecordIsTokens(es[0].value, k);
      AllTokensConcat(EventRecord(es[0]), EventRecords(es[1..]));
    }
  }

  lemma TrackBlockIsTokens(t: TrackPanel, k: int)
    requires WritableTrack(t, k)
    ensures AllTokens(TrackBlock(t, k))
  {
    var name := "track" + IntToString(k);
    IntToStringIsToken(k);
    assert IsToken(name) by {
      forall i | 0 <= i < |name|
        ensures !IsWhitespace(name[i])
      {
        if i >= 5 {
          assert name[i] == IntToString(k)[i - 5];
        }
      }
    }
    IntToStringIsToken(t.instrument);
    IntToStringIsToken(t.volume);
    IntToStringIsToken(t.length);
    IntToStringIsToken(|t.events|);
    EventRecordsAreTokens(t.events, k);
    AllTokensConcat(TrackHeader(t, k), EventRecords(t.events));
  }

  lemma {:induction false} TrackBlocksAreTokens(ts: seq<TrackPanel>)
    requires forall j :: 0 <= j < |ts| ==> WritableTrack(ts[j], j)
    ensures AllTokens(TrackBlocks(ts))
    decreases |ts|
  {
    if ts != [] {
      var last := |ts| - 1;
      var init, block := TrackBlocks(ts[..last]), TrackBlock(ts[last], last);
      assert AllTokens(init) by {
        TrackBlocksAreTokens(ts[..last]);
      }
      assert AllTokens(block) by {
        TrackBlockIsTokens(ts[last], last);
      }
      AllTokensConcat(init, block);
    }
  }

  /** Every line of the text of a writable file is one token. */
  lemma FileTextIsTokens(tempo: int, ts: seq<TrackPanel>, song: SongState, supply: seq<Sequencer>)
    requires WritableFile(tempo, ts, song, supply)
    ensures AllTokens(FileText(tempo, ts, song))
  {
    var front := [IntToString(tempo), IntToString(|ts|)];
    var header := ["song", IntToString(song.length), IntToString(|song.events|)];
    assert AllTokens(front) by {
      IntToStringIsToken(tempo);
      IntToStringIsToken(|ts|);
    }
    assert AllTokens(SongBlock(song)) by {
      IntToStringIsToken(song.length);
      IntToStringIsToken(|song.events|);
      EventRecordsAreTokens(song.events, |ts|);
      AllTokensConcat(header, EventRecords(song.events));
    }
    assert AllTokens(TrackBlocks(ts)) by {
      TrackBlocksAreTokens(ts);
    }
    AllTokensConcat(front, TrackBlocks(ts));
    AllTokensConcat(front + TrackBlocks(ts), SongBlock(song));
  }

  /**
   * Round trip through the text: scanning the characters `writeFile` emits
   * for a writable file and loading the tokens restores the file.
   */
  lemma LoadFileOfText(tempo: int, ts: seq<TrackPanel>, song: SongState, supply: seq<Sequencer>, song0: SongState)
    requires WritableFile(tempo, ts, song, supply)
    ensures LoadFile(Tokens(Unlines(FileText(tempo, ts, song))), supply, song0)
      == FileLoad(tempo, ReloadTracks(ts, tempo, supply), SongState(song.length, tempo, ReloadAll(song.events, supply)))
  {
    FileTextIsTokens(tempo, ts, song, supply);
    TokensOfUnlines(FileText(tempo, ts, song));
    LoadFileOfFileText(tempo, ts, song, supply, song0);
  }
}
