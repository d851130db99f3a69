/**
 * `SongFiles` as the program runs it: the writers append line after line
 * to a `StringBuilder`, the readers advance a `Scanner` and collect what
 * they read in `BetterDynamicArray`s. Each method is proved against the
 * functions of `SongFormat`.
 */
module SongFiles {
  import opened Outcomes
  import opened Decimal
  import opened AudioEvents
  import opened DynamicArray
  import opened TextLines
  import opened SongFormat

  /**
   * A `StringBuilder` that the writers only ever extend by whole lines;
   * its text is each line followed by a newline.
   */
  class TextBuilder {
    var lines: seq<string>

    constructor ()
      ensures lines == []
    {
      lines := [];
    }

    /** `sb.append(s).append("\n")`. */
    method AppendLine(s: string)
      modifies this
      ensures lines == old(lines) + [s]
    {
      lines := lines + [s];
    }

    /** `sb.toString()`. */
    method ToString() returns (text: string)
      ensures text == Unlines(lines)
    {
      text := "";
      var i := 0;
      while i < |lines|
        invariant 0 <= i <= |lines| && text == Unlines(lines[..i])
      {
        assert lines[..i + 1] == lines[..i] + [lines[i]];
        UnlinesConcat(lines[..i], [lines[i]]);
        text := text + lines[i] + "\n";
        i := i + 1;
      }
      assert lines[..i] == lines;
    }
  }

  /** A `Scanner` over the tokens of a text, and the position of the next one. */
  class Scanner {
    const toks: seq<string>
    var pos: nat

    constructor (text: string)
      ensures toks == Tokens(text) && pos == 0
    {
      toks := Tokens(text);
      pos := 0;
    }

    /** `next()`: the next token, or `NoSuchElementException` at the end. */
    method Next() returns (r: Result<string>)
      modifies this
      ensures TokenAt(toks, old(pos)).Ok? ==>
        r == Ok(TokenAt(toks, old(pos)).value.value) && pos == TokenAt(toks, old(pos)).value.next
      ensures TokenAt(toks, old(pos)).Err? ==> r == Err(TokenAt(toks, old(pos)).error) && pos == old(pos)
    {
      if pos >= |toks| {
        return Err(NoSuchElement);
      }
      r := Ok(toks[pos]);
      pos := pos + 1;
    }

    /**
     * `nextInt()`: the next token as an `int`; a token that is not one is
     * left unread and raises `InputMismatchException`.
     */
    method NextInt() returns (r: Result<int>)
      modifies this
      ensures IntAt(toks, old(pos)).Ok? ==>
        r == Ok(IntAt(toks, old(pos)).value.value) && pos == IntAt(toks, old(pos)).value.next
      ensures IntAt(toks, old(pos)).Err? ==> r == Err(IntAt(toks, old(pos)).error) && pos == old(pos)
    {
      if pos >= |toks| {
        return Err(NoSuchElement);
      }
      var v := ParseInt(toks[pos]);
      if v.None? {
        return Err(InputMismatch);
      }
      r := Ok(v.value);
      pos := pos + 1;
    }
  }

  /** The part of a `SongPanel` the file layer reads and sets. */
  class SongPanel {
    var length: int
    var tempo: int
    var events: seq<Option<Event>>

    function State(): SongState
      reads this
    {
      SongState(length, tempo, events)
    }

    constructor (length: int, tempo: int, events: seq<Option<Event>>)
      ensures State() == SongState(length, tempo, events)
    {
      this.length := length;
      this.tempo := tempo;
      this.events := events;
    }

    /** `clear()`: the song editor drops its events. */
    method Clear()
      modifies this
      ensures State() == old(State()).(events := [])
    {
      events := [];
    }

    method SetLength(length: int)
      modifies this
      ensures State() == old(State()).(length := length)
    {
      this.length := length;
    }

    method SetTempo(tempo: int)
      modifies this
      ensures State() == old(State()).(tempo := tempo)
    {
      this.tempo := tempo;
    }

    method SetEvents(events: seq<Option<Event>>)
      modifies this
      ensures State() == old(State()).(events := events)
    {
      this.events := events;
    }
  }

  // ---------------------------------------------------------------------
  // Writing
  // ---------------------------------------------------------------------

  /** Appending in two steps is appending the two parts at once. */
  lemma ConcatAssoc<T>(a: seq<T>, b: seq<T>, c: seq<T>)
    ensures a + b + c == a + (b + c)
  {
  }

  lemma {:induction false} EventRecordsConcat(a: seq<Option<Event>>, b: seq<Option<Event>>)
    ensures EventRecords(a + b) == EventRecords(a) + EventRecords(b)
    decreases |a|
  {
    if a == [] {
      assert a + b == b;
    } else {
      assert (a + b)[1..] == a[1..] + b;
      EventRecordsConcat(a[1..], b);
    }
  }

  lemma AllTrackEventsSnoc(ts: seq<TrackPanel>, k: nat)
    requires k < |ts|
    ensures AllTrackEvents(ts[..k + 1]) == AllTrackEvents(ts[..k]) + ts[k].events
  {
    assert ts[..k + 1][..k] == ts[..k];
  }

  /** `writeAudioEventBlock`: the record of `e`, nothing for `null`. */
  method WriteAudioEventBlock(sb: TextBuilder, e: Option<Event>)
    modifies sb
    ensures sb.lines == old(sb.lines) + EventRecord(e)
  {
    if e.None? {
      return;
    }
    match e.value
    case Change(time, name, channel, value) =>
      AppendRecord(sb, "change", name, time, channel, value, 0);
    case Note(time, name, channel, duration, pitch) =>
      AppendRecord(sb, "note", name, time, channel, pitch, duration);
    case Track(time, name, channel, duration, _) =>
      AppendRecord(sb, "track", name, time, channel, 0, duration);
  }

  /** The six lines of one event record: its tag, its name and four integers. */
  method AppendRecord(sb: TextBuilder, tag: string, name: string, a: int, b: int, c: int, d: int)
    modifies sb
    ensures sb.lines == old(sb.lines) + [tag, name, IntToString(a), IntToString(b), IntToString(c), IntToString(d)]
  {
    sb.AppendLine(tag);
    sb.AppendLine(name);
    sb.AppendLine(IntToString(a));
    sb.AppendLine(IntToString(b));
    sb.AppendLine(IntToString(c));
    sb.AppendLine(IntToString(d));
  }

  /** Writes the records of `events` in order. */
  method WriteEventBlocks(sb: TextBuilder, events: seq<Option<Event>>)
    modifies sb
    ensures sb.lines == old(sb.lines) + EventRecords(events)
  {
    var j := 0;
    while j < |events|
      invariant 0 <= j <= |events|
      invariant sb.lines == old(sb.lines) + EventRecords(events[..j])
    {
      assert events[..j + 1] == events[..j] + [events[j]];
      EventRecordsSnoc(events[..j], events[j]);
      WriteAudioEventBlock(sb, events[j]);
      ConcatAssoc(old(sb.lines), EventRecords(events[..j]), EventRecord(events[j]));
      j := j + 1;
    }
    assert events[..j] == events;
  }

  /** `writeTrackBlock(sb, track, trackNumber)`. */
  method WriteTrackBlock(sb: TextBuilder, track: TrackPanel, trackNumber: int)
    modifies sb
    ensures sb.lines == old(sb.lines) + TrackBlock(track, trackNumber)
  {
    sb.AppendLine("track" + IntToString(trackNumber));
    sb.AppendLine(IntToString(trackNumber));
    sb.AppendLine(IntToString(track.instrument));
    sb.AppendLine(IntToString(track.volume));
    sb.AppendLine(IntToString(track.length));
    sb.AppendLine(IntToString(|track.events|));
    ghost var header := sb.lines;
    assert header == old(sb.lines) + TrackHeader(track, trackNumber);
    WriteEventBlocks(sb, track.events);
    ConcatAssoc(old(sb.lines), TrackHeader(track, trackNumber), EventRecords(track.events));
  }

  /** The first loop of `writeSongBlock`: the number of events of all tracks. */
  method CountTrackEvents(tracks: BetterDynamicArray<TrackPanel>) returns (total: int)
    requires tracks.Valid()
    ensures total == |AllTrackEvents(tracks.Contents)|
  {
    ghost var ts := tracks.Contents;
    total := 0;
    var it := tracks.Iterator();
    var more := it.HasNext();
    while more
      invariant it.source == tracks && it.index <= |ts| && (more <==> it.index < |ts|)
      invariant total == |AllTrackEvents(ts[..it.index])|
      decreases |ts| - it.index
    {
      ghost var k := it.index;
      var track := it.Next();
      AllTrackEventsSnoc(ts, k);
      total := total + |track.value.events|;
      more := it.HasNext();
    }
    assert ts[..it.index] == ts;
  }

  /** The second loop of `writeSongBlock`: the records of all tracks' events, track by track. */
  method WriteTrackEvents(sb: TextBuilder, tracks: BetterDynamicArray<TrackPanel>)
    requires tracks.Valid()
    modifies sb
    ensures sb.lines == old(sb.lines) + EventRecords(AllTrackEvents(tracks.Contents))
  {
    ghost var ts := tracks.Contents;
    ghost var start := sb.lines;
    var it := tracks.Iterator();
    var more := it.HasNext();
    assert ts[..0] == [];
    while more
      invariant it.source == tracks && it.index <= |ts| && (more <==> it.index < |ts|)
      invariant sb.lines == start + EventRecords(AllTrackEvents(ts[..it.index]))
      decreases |ts| - it.index
    {
      ghost var k := it.index;
      var track := it.Next();
      WriteEventsOfTrack(sb, ts, k, track.value, start);
      more := it.HasNext();
    }
    assert ts[..it.index] == ts;
  }

  /** One pass of the second loop: the records of track `k` after those of the tracks before it. */
  method WriteEventsOfTrack(sb: TextBuilder, ghost ts: seq<TrackPanel>, ghost k: nat, track: TrackPanel,
                            ghost start: seq<string>)
    requires k < |ts| && track == ts[k] && sb.lines == start + EventRecords(AllTrackEvents(ts[..k]))
    modifies sb
    ensures sb.lines == start + EventRecords(AllTrackEvents(ts[..k + 1]))
  {
    AllTrackEventsSnoc(ts, k);
    EventRecordsConcat(AllTrackEvents(ts[..k]), ts[k].events);
    WriteEventBlocks(sb, track.events);
    ConcatAssoc(start, EventRecords(AllTrackEvents(ts[..k])), EventRecords(ts[k].events));
  }

  /**
   * `writeSongBlock(sb, tracks, length)` as the program has it: the events
   * of every track, and their total count, go into the song block.
   */
  method WriteSongBlockAsWritten(sb: TextBuilder, tracks: BetterDynamicArray<TrackPanel>, length: int)
    requires tracks.Valid()
    modifies sb
    ensures sb.lines == old(sb.lines) + SongBlockAsWritten(tracks.Contents, length)
  {
    sb.AppendLine("song");
    sb.AppendLine(IntToString(length));
    var totalEventCount := CountTrackEvents(tracks);
    sb.AppendLine(IntToString(totalEventCount));
    ghost var header := ["song", IntToString(length), IntToString(totalEventCount)];
    assert sb.lines == old(sb.lines) + header;
    WriteTrackEvents(sb, tracks);
    ConcatAssoc(old(sb.lines), header, EventRecords(AllTrackEvents(tracks.Contents)));
  }

  /** The song block that stores the song: its length, its event count and its events. */
  method WriteSongBlock(sb: TextBuilder, song: SongPanel)
    modifies sb
    ensures sb.lines == old(sb.lines) + SongBlock(song.State())
  {
    sb.AppendLine("song");
    sb.AppendLine(IntToString(song.length));
    sb.AppendLine(IntToString(|song.events|));
    ghost var header := ["song", IntToString(song.length), IntToString(|song.events|)];
    assert sb.lines == old(sb.lines) + header;
    WriteEventBlocks(sb, song.events);
    ConcatAssoc(old(sb.lines), header, EventRecords(song.events));
  }

  /** The tempo line, the track-count line and the track blocks `writeFile` writes first. */
  method WriteTracks(sb: TextBuilder, tempo: int, tracks: BetterDynamicArray<TrackPanel>)
    requires tracks.Valid() && sb.lines == []
    modifies sb
    ensures sb.lines == [IntToString(tempo), IntToString(|tracks.Contents|)] + TrackBlocks(tracks.Contents)
  {
    sb.AppendLine(IntToString(tempo));
    var n := tracks.Size();
    sb.AppendLine(IntToString(n));
    WriteTrackBlocks(sb, tracks);
  }

  /** The loop of `writeFile`: the block of each track, numbered by its index. */
  method WriteTrackBlocks(sb: TextBuilder, tracks: BetterDynamicArray<TrackPanel>)
    requires tracks.Valid()
    modifies sb
    ensures sb.lines == old(sb.lines) + TrackBlocks(tracks.Contents)
  {
    ghost var ts := tracks.Contents;
    ghost var start := sb.lines;
    var n := tracks.Size();
    var i := 0;
    assert ts[..0] == [];
    while i < n
      invariant 0 <= i <= n == |ts|
      invariant sb.lines == start + TrackBlocks(ts[..i])
    {
      WriteTrackAt(sb, tracks, i, start);
      i := i + 1;
    }
    assert ts[..i] == ts;
  }

  /** One pass of the loop of `writeFile`: the block of track `i` after those before it. */
  method WriteTrackAt(sb: TextBuilder, tracks: BetterDynamicArray<TrackPanel>, i: nat, ghost start: seq<string>)
    requires tracks.Valid() && i < |tracks.Contents|
    requires sb.lines == start + TrackBlocks(tracks.Contents[..i])
    modifies sb
    ensures sb.lines == start + TrackBlocks(tracks.Contents[..i + 1])
  {
    ghost var ts := tracks.Contents;
    var track := tracks.Get(i);
    TrackBlocksSnoc(ts, i);
    WriteTrackBlock(sb, track.value, i);
    ConcatAssoc(start, TrackBlocks(ts[..i]), TrackBlock(ts[i], i));
  }

  /** The text `writeFile` writes, with its song block as the program has it. */
  method WriteFileAsWritten(tempo: int, tracks: BetterDynamicArray<TrackPanel>) returns (text: string)
    requires tracks.Valid()
    ensures text == Unlines(FileTextAsWritten(tempo, tracks.Contents))
  {
    var sb := new TextBuilder();
    WriteTracks(sb, tempo, tracks);
    var n := tracks.Size();
    WriteSongBlockAsWritten(sb, tracks, n);
    text := sb.ToString();
  }

  /** The text `writeFile` writes, with a song block that stores the song. */
  method WriteFile(tempo: int, tracks: BetterDynamicArray<TrackPanel>, song: SongPanel) returns (text: string)
    requires tracks.Valid()
    ensures text == Unlines(FileText(tempo, tracks.Contents, song.State()))
  {
    var sb := new TextBuilder();
    WriteTracks(sb, tempo, tracks);
    WriteSongBlock(sb, song);
    text := sb.ToString();
  }

  // ---------------------------------------------------------------------
  // Reading
  // ---------------------------------------------------------------------

  /** `readAudioEventBlock`: six tokens, then the event their tag names. */
  method ReadAudioEventBlock(sc: Scanner, tracks: BetterDynamicArray<TrackPanel>) returns (r: Result<Option<Event>>)
    requires tracks.Valid()
    modifies sc
    ensures ParseEvent(sc.toks, old(sc.pos), tracks.Contents).Ok? ==>
      r == Ok(ParseEvent(sc.toks, old(sc.pos), tracks.Contents).value.value)
      && sc.pos == ParseEvent(sc.toks, old(sc.pos), tracks.Contents).value.next
    ensures ParseEvent(sc.toks, old(sc.pos), tracks.Contents).Err? ==>
      r == Err(ParseEvent(sc.toks, old(sc.pos), tracks.Contents).error)
  {
    var f :- ReadRecord(sc);
    var eventType, name, time, channel, value, duration := f.tag, f.name, f.time, f.channel, f.value, f.duration;
    if eventType == "change" {
      r := Ok(Some(Change(time, name, channel, value)));
    } else if eventType == "note" {
      r := Ok(Some(Note(time, name, channel, duration, value)));
    } else if eventType == "track" {
      var target :- tracks.Get(channel);
      r := Ok(Some(Track(time, name, channel, duration, target.sequencer)));
    } else {
      r := Ok(None);
    }
  }

  /** The six `next`/`nextInt` calls that open `readAudioEventBlock`. */
  method ReadRecord(sc: Scanner) returns (r: Result<RecordFields>)
    modifies sc
    ensures RecordAt(sc.toks, old(sc.pos)).Ok? ==>
      r == Ok(RecordAt(sc.toks, old(sc.pos)).value.value) && sc.pos == RecordAt(sc.toks, old(sc.pos)).value.next
    ensures RecordAt(sc.toks, old(sc.pos)).Err? ==> r == Err(RecordAt(sc.toks, old(sc.pos)).error)
  {
    var eventType :- sc.Next();
    var name :- sc.Next();
    var time :- sc.NextInt();
    var channel :- sc.NextInt();
    var value :- sc.NextInt();
    var duration :- sc.NextInt();
    r := Ok(RecordFields(eventType, name, time, channel, value, duration));
  }

  lemma PrependedEmpty(r: Result<Parsed<seq<Option<Event>>>>)
    ensures Prepended([], r) == r
  {
    if r.Ok? {
      assert [] + r.value.value == r.value.value;
    }
  }

  lemma PrependedStep(xs: seq<Option<Event>>, e: Option<Event>, r: Result<Parsed<seq<Option<Event>>>>)
    ensures Prepended(xs, Prepended([e], r)) == Prepended(xs + [e], r)
  {
    if r.Ok? {
      assert xs + ([e] + r.value.value) == xs + [e] + r.value.value;
    }
  }

  /** Once no events are left to read, the ones read so far are the result. */
  lemma PrependedDone(xs: seq<Option<Event>>, toks: seq<string>, pos: nat, n: int, loaded: seq<TrackPanel>)
    requires n <= 0
    ensures Prepended(xs, ParseEvents(toks, pos, n, loaded)) == Ok(Parsed(xs, pos))
  {
    assert xs + [] == xs;
  }

  /** The elements of `a`, read with `size()` and `get(i)`. */
  method ContentsOf<T(==)>(a: BetterDynamicArray<T>) returns (s: seq<T>)
    requires a.Valid()
    ensures s == a.Contents
  {
    s := [];
    var n := a.Size();
    var i := 0;
    while i < n
      invariant 0 <= i <= n == |a.Contents| && s == a.Contents[..i]
    {
      var x := a.Get(i);
      s := s + [x.value];
      i := i + 1;
    }
    assert a.Contents[..i] == a.Contents;
  }

  /**
   * One iteration of the loop of `readTrackBlock` and `readSongBlock`: the
   * next record is read and appended to `events`, or its exception returned.
   */
  method ReadEventInto(sc: Scanner, tracks: BetterDynamicArray<TrackPanel>, events: BetterDynamicArray<Option<Event>>,
                       ghost loaded: seq<TrackPanel>, ghost whole: Result<Parsed<seq<Option<Event>>>>, ghost n: int,
                       ghost i: int)
    returns (error: Option<Error>)
    requires tracks.Valid() && tracks.Contents == loaded && events.Valid() && i < n
    requires whole == Prepended(events.Contents, ParseEvents(sc.toks, sc.pos, n - i, loaded))
    modifies sc, events, events.elements
    ensures events.Valid() && (events.elements == old(events.elements) || fresh(events.elements))
    ensures error.None? ==> whole == Prepended(events.Contents, ParseEvents(sc.toks, sc.pos, n - (i + 1), loaded))
    ensures error.Some? ==> whole.Err?
  {
    ghost var before := events.Contents;
    var event := ReadAudioEventBlock(sc, tracks);
    if event.Err? {
      return Some(event.error);
    }
    ParseEventsStep(sc.toks, old(sc.pos), n - i, loaded);
    PrependedStep(before, event.value, ParseEvents(sc.toks, sc.pos, n - (i + 1), loaded));
    events.Add(event.value);
    error := None;
  }

  /** The loop of `readTrackBlock` and `readSongBlock`, appending each record read to `events`. */
  method ReadEventsInto(sc: Scanner, tracks: BetterDynamicArray<TrackPanel>, events: BetterDynamicArray<Option<Event>>,
                        ghost whole: Result<Parsed<seq<Option<Event>>>>, numEvents: int)
    returns (error: Option<Error>)
    requires tracks.Valid() && events.Valid()
    requires whole == Prepended(events.Contents, ParseEvents(sc.toks, sc.pos, numEvents, tracks.Contents))
    modifies sc, events, events.elements
    ensures events.Valid()
    ensures error.None? ==> whole == Ok(Parsed(events.Contents, sc.pos))
    ensures error.Some? ==> whole.Err?
  {
    ghost var loaded := tracks.Contents;
    var i := 0;
    while i < numEvents
      invariant 0 <= i && (numEvents >= 0 ==> i <= numEvents)
      invariant events.Valid() && (events.elements == old(events.elements) || fresh(events.elements))
      invariant tracks.Valid() && tracks.Contents == loaded
      invariant whole == Prepended(events.Contents, ParseEvents(sc.toks, sc.pos, numEvents - i, loaded))
    {
      error := ReadEventInto(sc, tracks, events, loaded, whole, numEvents, i);
      if error.Some? {
        return;
      }
      i := i + 1;
    }
    PrependedDone(events.Contents, sc.toks, sc.pos, numEvents - i, loaded);
    error := None;
  }

  /**
   * The loop of `readTrackBlock` and `readSongBlock`: `numEvents` records
   * read into a new array, whose elements are the result.
   */
  method ReadEvents(sc: Scanner, tracks: BetterDynamicArray<TrackPanel>, numEvents: int)
    returns (r: Result<seq<Option<Event>>>)
    requires tracks.Valid()
    modifies sc
    ensures ParseEvents(sc.toks, old(sc.pos), numEvents, tracks.Contents).Ok? ==>
      r == Ok(ParseEvents(sc.toks, old(sc.pos), numEvents, tracks.Contents).value.value)
      && sc.pos == ParseEvents(sc.toks, old(sc.pos), numEvents, tracks.Contents).value.next
    ensures ParseEvents(sc.toks, old(sc.pos), numEvents, tracks.Contents).Err? ==> r.Err?
  {
    ghost var whole := ParseEvents(sc.toks, sc.pos, numEvents, tracks.Contents);
    var events := new BetterDynamicArray<Option<Event>>();
    PrependedEmpty(whole);
    var error := ReadEventsInto(sc, tracks, events, whole, numEvents);
    if error.Some? {
      return Err(error.value);
    }
    var read := ContentsOf(events);
    r := Ok(read);
  }

  /** The six `next`/`nextInt` calls that open `readTrackBlock`; the first, the block's name, is skipped. */
  method ReadTrackHeader(sc: Scanner) returns (r: Result<TrackFields>)
    modifies sc
    ensures TrackHeaderAt(sc.toks, old(sc.pos)).Ok? ==>
      r == Ok(TrackHeaderAt(sc.toks, old(sc.pos)).value.value) && sc.pos == TrackHeaderAt(sc.toks, old(sc.pos)).value.next
    ensures TrackHeaderAt(sc.toks, old(sc.pos)).Err? ==> r == Err(TrackHeaderAt(sc.toks, old(sc.pos)).error)
  {
    var trackName :- sc.Next();
    var trackNumber :- sc.NextInt();
    var instrument :- sc.NextInt();
    var volume :- sc.NextInt();
    var length :- sc.NextInt();
    var numEvents :- sc.NextInt();
    r := Ok(TrackFields(trackNumber, instrument, volume, length, numEvents));
  }

  /**
   * `readTrackBlock`: a six-token header, then the events, read with the
   * tracks loaded so far; the track joins `tracks` once all its events
   * were read. Its sequencer is the next one of `supply`.
   */
  method ReadTrackBlock(sc: Scanner, tracks: BetterDynamicArray<TrackPanel>, tempo: int, supply: seq<Sequencer>)
    returns (r: Outcome)
    requires tracks.Valid()
    modifies sc, tracks, tracks.elements
    ensures tracks.Valid() && (tracks.elements == old(tracks.elements) || fresh(tracks.elements))
    ensures tracks.Contents == LoadTrack(sc.toks, old(sc.pos), old(tracks.Contents), tempo, supply).loaded
    ensures r.Pass? == LoadTrack(sc.toks, old(sc.pos), old(tracks.Contents), tempo, supply).ok
    ensures r.Pass? ==> sc.pos == LoadTrack(sc.toks, old(sc.pos), old(tracks.Contents), tempo, supply).next
  {
    ghost var loaded := tracks.Contents;
    var header := ReadTrackHeader(sc);
    if header.Err? {
      return Fail(header.error);
    }
    var h := header.value;
    var k := tracks.Size();
    if k >= |supply| {
      return Fail(IndexOutOfBounds);
    }
    var events := ReadEvents(sc, tracks, h.count);
    if events.Err? {
      return Fail(events.error);
    }
    tracks.Add(TrackPanel(h.number, h.instrument, h.volume, h.length, tempo, events.value, supply[k]));
    r := Pass;
  }

  /**
   * `readSongBlock`: a three-token header that sets the song's length and
   * tempo, then the events, which replace the song's once all were read.
   */
  method ReadSongBlock(sc: Scanner, song: SongPanel, tracks: BetterDynamicArray<TrackPanel>, tempo: int)
    requires tracks.Valid()
    modifies sc, song
    ensures song.State() == LoadSong(sc.toks, old(sc.pos), tracks.Contents, tempo, old(song.State()))
  {
    var songName := sc.Next();
    if songName.Err? {
      return;
    }
    var length := sc.NextInt();
    if length.Err? {
      return;
    }
    var numEvents := sc.NextInt();
    if numEvents.Err? {
      return;
    }
    song.SetLength(length.value);
    song.SetTempo(tempo);
    var events := ReadEvents(sc, tracks, numEvents.value);
    if events.Err? {
      return;
    }
    song.SetEvents(events.value);
  }

  /** The loop of `readFile`: `numTracks` track blocks, until the first exception. */
  method ReadTrackBlocks(sc: Scanner, tracks: BetterDynamicArray<TrackPanel>, numTracks: int, tempo: int,
                         supply: seq<Sequencer>) returns (ok: bool)
    requires tracks.Valid()
    modifies sc, tracks, tracks.elements
    ensures tracks.Valid() && (tracks.elements == old(tracks.elements) || fresh(tracks.elements))
    ensures tracks.Contents == LoadTracks(sc.toks, old(sc.pos), numTracks, old(tracks.Contents), tempo, supply).loaded
    ensures ok == LoadTracks(sc.toks, old(sc.pos), numTracks, old(tracks.Contents), tempo, supply).ok
    ensures ok ==> sc.pos == LoadTracks(sc.toks, old(sc.pos), numTracks, old(tracks.Contents), tempo, supply).next
  {
    var i := 0;
    ghost var whole := LoadTracks(sc.toks, sc.pos, numTracks, tracks.Contents, tempo, supply);
    while i < numTracks
      invariant 0 <= i && (numTracks >= 0 ==> i <= numTracks)
      invariant tracks.Valid() && (tracks.elements == old(tracks.elements) || fresh(tracks.elements))
      invariant whole == LoadTracks(sc.toks, sc.pos, numTracks - i, tracks.Contents, tempo, supply)
    {
      var more := ReadTrackInto(sc, tracks, tempo, supply, whole, numTracks - i);
      if !more {
        return false;
      }
      i := i + 1;
    }
    ok := true;
  }

  /** One iteration of the loop of `readFile`, with `n > 0` track blocks still to read. */
  method ReadTrackInto(sc: Scanner, tracks: BetterDynamicArray<TrackPanel>, tempo: int, supply: seq<Sequencer>,
                       ghost whole: Progress, ghost n: int) returns (more: bool)
    requires tracks.Valid() && n > 0
    requires whole == LoadTracks(sc.toks, sc.pos, n, tracks.Contents, tempo, supply)
    modifies sc, tracks, tracks.elements
    ensures tracks.Valid() && (tracks.elements == old(tracks.elements) || fresh(tracks.elements))
    ensures more ==> whole == LoadTracks(sc.toks, sc.pos, n - 1, tracks.Contents, tempo, supply)
    ensures !more ==> !whole.ok && whole.loaded == tracks.Contents
  {
    LoadTracksUnfold(sc.toks, sc.pos, n, tracks.Contents, tempo, supply);
    var o := ReadTrackBlock(sc, tracks, tempo, supply);
    more := o.Pass?;
  }

  /**
   * `readFile` on the text of a file: `tracks` and the song's events are
   * cleared, then the tempo, the track count, the track blocks and the song
   * block are read until the first exception. Returns the tempo read, 0 if
   * there was none.
   */
  method ReadFile(text: string, supply: seq<Sequencer>, tracks: BetterDynamicArray<TrackPanel>, song: SongPanel)
    returns (tempo: int)
    requires tracks.Valid()
    modifies tracks, tracks.elements, song
    ensures tracks.Valid()
    ensures tempo == LoadFile(Tokens(text), supply, old(song.State())).tempo
    ensures tracks.Contents == LoadFile(Tokens(text), supply, old(song.State())).tracks
    ensures song.State() == LoadFile(Tokens(text), supply, old(song.State())).song
  {
    tracks.Clear();
    song.Clear();
    tempo := 0;
    var sc := new Scanner(text);
    var t := sc.NextInt();
    if t.Err? {
      return;
    }
    tempo := t.value;
    var numTracks := sc.NextInt();
    if numTracks.Err? {
      return;
    }
    var ok := ReadTrackBlocks(sc, tracks, numTracks.value, tempo, supply);
    if !ok {
      return;
    }
    ReadSongBlock(sc, song, tracks, tempo);
  }
}
