/**
 * The audio events: `ChangeEvent`, `NoteEvent` and `TrackEvent`, the three
 * subclasses of the abstract `AudioEvent`. Every event carries a time, a
 * name and a channel, fixed at construction and never changed; the
 * variants add their own payload.
 */
module AudioEvents {
  import opened JavaInt
  import opened Decimal
  import opened Sorting

  /**
   * A `SimpleSequencer`: its behaviour is not part of this model, only its
   * identity, which a `TrackEvent` shares with the track that owns it.
   */
  class Sequencer {
    constructor () {}
  }

  /**
   * An immutable event. The constructor arguments of each variant are its
   * fields, in the Java constructor's order, and the getters are the field
   * selectors (`time`, `name`, `channel`, `value`, `duration`, `pitch`,
   * `sequence`).
   */
  datatype Event =
    | Change(time: int, name: string, channel: int, value: int)
    | Note(time: int, name: string, channel: int, duration: int, pitch: int)
    | Track(time: int, name: string, channel: int, duration: int, sequence: Sequencer)

  /** The tie-break order of the variants at equal times. */
  function Rank(e: Event): (r: nat)
    ensures r <= 2
  {
    match e
    case Change(_, _, _, _) => 0
    case Note(_, _, _, _, _) => 1
    case Track(_, _, _, _, _) => 2
  }

  /**
   * `a.compareTo(b)`, dispatched on the variant of `a` as each subclass
   * does: by time first, then by the variant tie-break table.
   */
  function CompareTo(a: Event, b: Event): (r: int)
    ensures r == -1 || r == 0 || r == 1
  {
    if a.time != b.time then IntegerCompare(a.time, b.time)
    else
      match a
      case Change(_, _, _, _) => if b.Note? || b.Track? then -1 else 0
      case Note(_, _, _, _, _) => if b.Change? then 1 else if b.Track? then -1 else 0
      case Track(_, _, _, _, _) => if b.Note? || b.Change? then 1 else 0
  }

  /** The reference order: lexicographic on (time, rank). */
  function LexCompare(a: Event, b: Event): int {
    if a.time != b.time then IntegerCompare(a.time, b.time)
    else IntegerCompare(Rank(a), Rank(b))
  }

  /** The three `compareTo` methods together compare (time, variant rank) lexicographically. */
  lemma CompareToIsLexicographic(a: Event, b: Event)
    ensures CompareTo(a, b) == LexCompare(a, b)
    ensures CompareTo(a, b) < 0 <==> a.time < b.time || (a.time == b.time && Rank(a) < Rank(b))
    ensures CompareTo(a, b) == 0 <==> a.time == b.time && Rank(a) == Rank(b)
  {
  }

  /** At equal times the sign is decided by the variant ranks alone. */
  lemma CompareToAtEqualTime(a: Event, b: Event)
    requires a.time == b.time
    ensures CompareTo(a, b) < 0 <==> Rank(a) < Rank(b)
    ensures CompareTo(a, b) > 0 <==> Rank(a) > Rank(b)
  {
    CompareToIsLexicographic(a, b);
  }

  /** At different times the sign is that of the time difference. */
  lemma CompareToAtDifferentTimes(a: Event, b: Event)
    requires a.time != b.time
    ensures Sign(CompareTo(a, b)) == Sign(a.time - b.time)
  {
  }

  /** Swapping the arguments flips the result. */
  lemma CompareToAntisymmetric(a: Event, b: Event)
    ensures CompareTo(a, b) == -CompareTo(b, a)
  {
    CompareToIsLexicographic(a, b);
    CompareToIsLexicographic(b, a);
  }

  /** Every event is equivalent to itself. */
  lemma CompareToReflexive(a: Event)
    ensures CompareTo(a, a) == 0
  {
  }

  /** "Not after" is transitive. */
  lemma CompareToTransitive(a: Event, b: Event, c: Event)
    requires CompareTo(a, b) <= 0 && CompareTo(b, c) <= 0
    ensures CompareTo(a, c) <= 0
  {
    CompareToIsLexicographic(a, b);
    CompareToIsLexicographic(b, c);
    CompareToIsLexicographic(a, c);
  }

  /** `compareTo` fulfils the `Comparable` contract on every set of events. */
  lemma CompareToIsTotalPreorder(dom: set<Event>)
    ensures IsTotalPreorderOn(CompareTo, dom)
  {
    forall x, y | x in dom && y in dom ensures Sign(CompareTo(x, y)) == -Sign(CompareTo(y, x)) {
      CompareToAntisymmetric(x, y);
    }
    forall x, y, z | x in dom && y in dom && z in dom && CompareTo(x, y) <= 0 && CompareTo(y, z) <= 0
      ensures CompareTo(x, z) <= 0
    {
      CompareToTransitive(x, y, z);
    }
  }

  /** Sorting a list of events orders it by time and variant, keeping ties in their order. */
  lemma SortedEvents(s: seq<Event>, z: Event)
    ensures SortedBy(SortBy(s, CompareTo), CompareTo)
    ensures multiset(SortBy(s, CompareTo)) == multiset(s)
    ensures Equivalents(SortBy(s, CompareTo), z, CompareTo) == Equivalents(s, z, CompareTo)
  {
    var dom := (set i | 0 <= i < |s| :: s[i]) + {z};
    assert Within(s, dom);
    CompareToIsTotalPreorder(dom);
    SortBySorted(s, CompareTo, dom);
    SortByPermutes(s, CompareTo);
    SortByStable(s, z, CompareTo, dom);
  }

  // ---------------------------------------------------------------------
  // Lifecycle
  // ---------------------------------------------------------------------

  /** What a lifecycle call does to the synthesizer or to a sequencer. */
  datatype Effect =
    | NoEffect
    | NoteOn(channel: int, pitch: int)
    | NoteOff(channel: int, pitch: int)
    | StartSequencer(sequencer: Sequencer)
    | StopSequencer(sequencer: Sequencer)

  /** `execute()`. A change event does nothing, whatever its documentation says. */
  function Execute(e: Event): Effect {
    match e
    case Change(_, _, _, _) => NoEffect
    case Note(_, _, channel, _, pitch) => NoteOn(channel, pitch)
    case Track(_, _, _, _, sequence) => StartSequencer(sequence)
  }

  /** `complete()`. */
  function Complete(e: Event): Effect {
    match e
    case Change(_, _, _, _) => NoEffect
    case Note(_, _, channel, _, pitch) => NoteOff(channel, pitch)
    case Track(_, _, _, _, _) => NoEffect
  }

  /** `cancel()`. */
  function Cancel(e: Event): Effect {
    match e
    case Change(_, _, _, _) => NoEffect
    case Note(_, _, channel, _, pitch) => NoteOff(channel, pitch)
    case Track(_, _, _, _, sequence) => StopSequencer(sequence)
  }

  /** Whether effect `y` reverses effect `x`. */
  predicate Undoes(x: Effect, y: Effect) {
    match x
    case NoEffect => y == NoEffect
    case NoteOn(c, p) => y == NoteOff(c, p)
    case NoteOff(_, _) => false
    case StartSequencer(s) => y == StopSequencer(s)
    case StopSequencer(_) => false
  }

  /** `cancel()` reverses whatever `execute()` did, for every variant. */
  lemma CancelUndoesExecute(e: Event)
    ensures Undoes(Execute(e), Cancel(e))
    ensures Execute(e) == NoEffect <==> e.Change?
  {
  }

  /** A note finishes the same way whether it completes or is cancelled. */
  lemma NoteCompleteIsCancel(e: Event)
    requires e.Note?
    ensures Complete(e) == Cancel(e) == NoteOff(e.channel, e.pitch)
    ensures Execute(e) == NoteOn(e.channel, e.pitch)
  {
  }

  /** A change event has no effect at all, and a track event's `complete()` does nothing. */
  lemma InertLifecycle(e: Event)
    ensures e.Change? ==> Execute(e) == Complete(e) == Cancel(e) == NoEffect
    ensures e.Track? ==> Complete(e) == NoEffect && Cancel(e) == StopSequencer(e.sequence)
  {
  }

  // ---------------------------------------------------------------------
  // Text
  // ---------------------------------------------------------------------

  /** `name[field, field, ...]` with the fields in decimal. */
  function Bracketed(name: string, fields: seq<int>): string {
    name + "[" + Fields(fields) + "]"
  }

  function Fields(fields: seq<int>): string {
    if fields == [] then "" else if |fields| == 1 then IntToString(fields[0])
    else IntToString(fields[0]) + ", " + Fields(fields[1..])
  }

  /**
   * `toString()` of a change or note event, or the first line of a track
   * event's, given how many events its sequencer holds.
   */
  function Describe(e: Event, sequencerCount: int): string {
    match e
    case Change(time, name, channel, value) => Bracketed(name, [channel, time, value])
    case Note(time, name, channel, duration, pitch) => Bracketed(name, [channel, time, duration, pitch])
    case Track(time, name, channel, duration, _) => Bracketed(name, [channel, time, duration, sequencerCount]) + "\n"
  }

  /** Decimal text is one-to-one: different `int`s are written differently. */
  lemma IntToStringInjective(x: int, y: int)
    requires IntToString(x) == IntToString(y)
    ensures x == y
  {
    var s := IntToString(x);
    if x < 0 {
      assert s[1..] == NatToString(-x) == NatToString(-y);
      DigitsValueOfNatToString(-x);
      DigitsValueOfNatToString(-y);
    } else {
      DigitsValueOfNatToString(x);
      DigitsValueOfNatToString(y);
    }
  }

  /** Decimal text never holds a comma. */
  predicate CommaFree(s: string) {
    forall i :: 0 <= i < |s| ==> s[i] != ','
  }

  lemma IntToStringCommaFree(x: int)
    ensures CommaFree(IntToString(x))
  {
  }

  /** Two texts that both start with a comma-free part and ", " split at the same place. */
  lemma SplitAtComma(s1: string, t1: string, s2: string, t2: string)
    requires CommaFree(s1) && CommaFree(s2) && s1 + ", " + t1 == s2 + ", " + t2
    ensures s1 == s2 && t1 == t2
  {
    // both lengths are the index of the first comma of the text
    var u := s1 + ", " + t1;
    assert u[|s1|] == ',' && forall i :: 0 <= i < |s1| ==> u[i] == s1[i];
    assert u[|s2|] == ',' && forall i :: 0 <= i < |s2| ==> u[i] == s2[i];
    assert |s1| == |s2|;
    assert s1 == u[..|s1|] == s2;
    assert t1 == u[|s1| + 2..] == t2;
  }

  /** The fields text determines the fields, given how many there are. */
  lemma {:induction false} FieldsInjective(xs: seq<int>, ys: seq<int>)
    requires |xs| == |ys| && Fields(xs) == Fields(ys)
    ensures xs == ys
  {
    if |xs| == 1 {
      IntToStringInjective(xs[0], ys[0]);
    } else if |xs| > 1 {
      IntToStringCommaFree(xs[0]);
      IntToStringCommaFree(ys[0]);
      SplitAtComma(IntToString(xs[0]), Fields(xs[1..]), IntToString(ys[0]), Fields(ys[1..]));
      IntToStringInjective(xs[0], ys[0]);
      FieldsInjective(xs[1..], ys[1..]);
      assert xs == [xs[0]] + xs[1..] && ys == [ys[0]] + ys[1..];
    }
  }

  lemma BracketedInjective(name: string, xs: seq<int>, ys: seq<int>)
    requires |xs| == |ys| && Bracketed(name, xs) == Bracketed(name, ys)
    ensures xs == ys
  {
    var a, b := Bracketed(name, xs), Bracketed(name, ys);
    assert Fields(xs) == a[|name| + 1..|a| - 1];
    assert Fields(ys) == b[|name| + 1..|b| - 1];
    FieldsInjective(xs, ys);
  }

  /**
   * The description of an event determines it among the events of its
   * variant and name: every field but a track's sequencer is written out.
   */
  lemma DescribeInjective(a: Event, b: Event, sequencerCount: int)
    requires Rank(a) == Rank(b) && a.name == b.name
    requires Describe(a, sequencerCount) == Describe(b, sequencerCount)
    ensures a.time == b.time && a.channel == b.channel
    ensures a.Change? ==> a.value == b.value
    ensures a.Note? ==> a.duration == b.duration && a.pitch == b.pitch
    ensures a.Track? ==> a.duration == b.duration
  {
    match a
    case Change(time, name, channel, value) =>
      BracketedInjective(name, [channel, time, value], [b.channel, b.time, b.value]);
    case Note(time, name, channel, duration, pitch) =>
      BracketedInjective(name, [channel, time, duration, pitch], [b.channel, b.time, b.duration, b.pitch]);
    case Track(time, name, channel, duration, _) =>
      var da, db := Describe(a, sequencerCount), Describe(b, sequencerCount);
      assert da[..|da| - 1] == Bracketed(name, [channel, time, duration, sequencerCount]);
      assert db[..|db| - 1] == Bracketed(name, [b.channel, b.time, b.duration, sequencerCount]);
      BracketedInjective(name, [channel, time, duration, sequencerCount], [b.channel, b.time, b.duration, sequencerCount]);
  }
}
