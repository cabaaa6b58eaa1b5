/**
 Whole runs of the jitter buffer: what comes out, in what order, and when it stops.

 A run is a sequence of calls; `After` and `Emitted` give the buffer it ends in and the items it
 has played. `Playlist` is the reference: what ought to be played, said without any buffer.
 */
module JitterRuns {
  import opened AudioFrames
  import opened JitterModel
  import opened Words
  import opened Wrappers
  import JitterBuffer

  datatype Call = Arrive(u: int, frame: AudioFrame) | Pull(now: int) | Finish

  datatype Answer = Told(result: InsertResult) | Handed(item: PlaybackItem) | Done

  function Step(c: Config, b: Buffer, call: Call): (Buffer, Answer) {
    match call
    case Arrive(u, frame) => var (b', result) := Insert(c, b, u, frame); (b', Told(result))
    case Pull(now) => var (b', item) := Pop(c, b, now); (b', Handed(item))
    case Finish => (Close(c, b), Done)
  }

  function After(c: Config, b: Buffer, run: seq<Call>): Buffer {
    if run == [] then b else Step(c, After(c, b, run[..|run| - 1]), run[|run| - 1]).0
  }

  function Answers(c: Config, b: Buffer, run: seq<Call>): seq<Answer> {
    if run == [] then []
    else
      var front := run[..|run| - 1];
      Answers(c, b, front) + [Step(c, After(c, b, front), run[|run| - 1]).1]
  }

  /** Every arrival carries the word of its number, within half the range of the cursor. */
  ghost predicate Legal(c: Config, b: Buffer, run: seq<Call>) {
    run != [] ==>
      var front, call := run[..|run| - 1], run[|run| - 1];
      && Legal(c, b, front)
      && (call.Arrive? ==> Arrives(After(c, b, front), call.u, call.frame))
  }

  /** The item of an answer, if it is one that is played. */
  function Played(answer: Answer): seq<PlaybackItem> {
    if answer.Handed? && (answer.item.status.Frame? || answer.item.status.Missing?) then [answer.item] else []
  }

  function Emitted(c: Config, b: Buffer, run: seq<Call>): seq<PlaybackItem> {
    if run == [] then []
    else
      var front := run[..|run| - 1];
      Emitted(c, b, front) + Played(Step(c, After(c, b, front), run[|run| - 1]).1)
  }

  /** The frames the buffer has taken in, by number. */
  function Accepted(c: Config, b: Buffer, run: seq<Call>): map<int, AudioFrame> {
    if run == [] then map[]
    else
      var front, call := run[..|run| - 1], run[|run| - 1];
      var accepted := Accepted(c, b, front);
      if Step(c, After(c, b, front), call).1 == Told(Inserted) then accepted[call.u := call.frame] else accepted
  }

  /** The number of the first frame taken in. */
  function Start(c: Config, run: seq<Call>): int {
    if run == [] then 0
    else
      var front, call := run[..|run| - 1], run[|run| - 1];
      if !After(c, EMPTY, front).initialized && call.Arrive? then call.u else Start(c, front)
  }

  /** The greatest accepted number below `u`. */
  function LastBefore(accepted: map<int, AudioFrame>, start: int, u: int): (v: int)
    requires start in accepted && start < u
    ensures start <= v < u && v in accepted
    ensures forall w :: v < w < u ==> w !in accepted
    decreases u - start
  {
    if u - 1 in accepted then u - 1 else LastBefore(accepted, start, u - 1)
  }

  /** What ought to be played as number `u`. */
  function Slot(c: Config, accepted: map<int, AudioFrame>, start: int, duration: nat, u: int): PlaybackItem
    requires start in accepted && start <= u
  {
    if u in accepted then PlayItem(u, accepted[u])
    else ConcealedItem(u, Conceal(c, accepted[LastBefore(accepted, start, u)], duration, u))
  }

  /** What ought to be played as the first `n` items. */
  function Playlist(c: Config, accepted: map<int, AudioFrame>, start: int, duration: nat, n: nat): seq<PlaybackItem>
    requires start in accepted
  {
    if n == 0 then []
    else Playlist(c, accepted, start, duration, n - 1) + [Slot(c, accepted, start, duration, start + n - 1)]
  }

  lemma {:induction false} PlaylistAt(c: Config, accepted: map<int, AudioFrame>, start: int, duration: nat, n: nat)
    requires start in accepted
    ensures |Playlist(c, accepted, start, duration, n)| == n
    ensures forall i :: 0 <= i < n ==>
      Playlist(c, accepted, start, duration, n)[i] == Slot(c, accepted, start, duration, start + i)
  {
    if n != 0 {
      PlaylistAt(c, accepted, start, duration, n - 1);
    }
  }

  /** A frame accepted at or past the cursor changes nothing that has been played. */
  lemma {:induction false} PlaylistStable(c: Config, accepted: map<int, AudioFrame>, start: int, duration: nat,
                                          n: nat, u: int, frame: AudioFrame)
    requires start in accepted && start + n <= u && u !in accepted
    ensures Playlist(c, accepted[u := frame], start, duration, n) == Playlist(c, accepted, start, duration, n)
    ensures n > 0 ==> LastBefore(accepted[u := frame], start, start + n) == LastBefore(accepted, start, start + n)
  {
    if n != 0 {
      PlaylistStable(c, accepted, start, duration, n - 1, u, frame);
    }
  }

  /** How the buffer after a run relates to what has been accepted and played. */
  ghost predicate Faithful(c: Config, b: Buffer, accepted: map<int, AudioFrame>, played: seq<PlaybackItem>,
                           start: int) {
    if !b.initialized then
      accepted == map[] && played == []
    else
      && b.duration.Some? && start in accepted && start <= b.next
      && (forall u :: u in accepted ==> start <= u && InStream(b, u, accepted[u]))
      && played == Playlist(c, accepted, start, b.duration.value, b.next - start)
      && (forall u :: u in b.frames <==> u in accepted && b.next <= u)
      && (forall u :: u in b.frames ==> b.frames[u] == accepted[u])
      && b.previous == if b.next == start then None else Some(accepted[LastBefore(accepted, start, b.next)])
  }

  /** Faithfulness looks only at the frames, the stream and the cursor. */
  predicate SameStream(b: Buffer, b': Buffer) {
    && b'.frames == b.frames && b'.format == b.format && b'.duration == b.duration
    && b'.previous == b.previous && b'.next == b.next && b'.initialized == b.initialized
  }

  lemma SameFaithful(c: Config, b: Buffer, b': Buffer, accepted: map<int, AudioFrame>, played: seq<PlaybackItem>,
                     start: int)
    requires Faithful(c, b, accepted, played, start) && SameStream(b, b')
    ensures Faithful(c, b', accepted, played, start)
  {
  }

  lemma FirstFaithful(c: Config, b: Buffer, u: int, frame: AudioFrame)
    requires !b.initialized && |b.frames| == 0 && b.previous.None? && Admissible(b, frame) && frame.sequence == Wrap(u)
    ensures Faithful(c, Store(c, Opened(b, u, frame), u, frame), map[u := frame], [], u)
  {
    hide FrameDuration, Wrap, Conceal;
    assert b.frames == map[];
  }

  lemma LaterFaithful(c: Config, b: Buffer, accepted: map<int, AudioFrame>, played: seq<PlaybackItem>, start: int,
                      u: int, frame: AudioFrame)
    requires b.initialized && Faithful(c, b, accepted, played, start)
    requires b.next <= u && u !in b.frames && InStream(b, u, frame)
    ensures Faithful(c, Store(c, b, u, frame), accepted[u := frame], played, start)
  {
    hide FrameDuration, Wrap, Conceal, Playlist;
    PlaylistStable(c, accepted, start, b.duration.value, b.next - start, u, frame);
  }

  lemma ArriveFaithful(c: Config, b: Buffer, accepted: map<int, AudioFrame>, played: seq<PlaybackItem>, start: int,
                       u: int, frame: AudioFrame)
    requires Inv(c, b) && Faithful(c, b, accepted, played, start) && Arrives(b, u, frame)
    ensures var (b', result) := Insert(c, b, u, frame);
      Faithful(c, b', if result == Inserted then accepted[u := frame] else accepted, played,
               if b.initialized then start else u)
  {
    hide FrameDuration, Wrap, Conceal, Playlist, Store;
    var (b', result) := Insert(c, b, u, frame);
    if result != Inserted {
      assert b.initialized ==> SameStream(b, b');
      if b.initialized {
        SameFaithful(c, b, b', accepted, played, start);
      }
    } else if b.initialized {
      assert Opened(b, u, frame) == b;
      LaterFaithful(c, b, accepted, played, start, u, frame);
    } else {
      FirstFaithful(c, b, u, frame);
      assert accepted == map[];
    }
  }

  lemma PlaylistGrows(c: Config, accepted: map<int, AudioFrame>, start: int, duration: nat, u: int)
    requires start in accepted && start <= u
    ensures Playlist(c, accepted, start, duration, u + 1 - start)
         == Playlist(c, accepted, start, duration, u - start) + [Slot(c, accepted, start, duration, u)]
    ensures LastBefore(accepted, start, u + 1) == if u in accepted then u else LastBefore(accepted, start, u)
  {
  }

  /** Playing the right item and moving the cursor past it keeps a buffer faithful. */
  lemma AdvanceFaithful(c: Config, b: Buffer, b': Buffer, accepted: map<int, AudioFrame>, played: seq<PlaybackItem>,
                        start: int)
    requires b.initialized && Faithful(c, b, accepted, played, start)
    requires b'.initialized && b'.format == b.format && b'.duration == b.duration && b'.next == b.next + 1
    requires forall u :: u in b'.frames <==> u in b.frames && u != b.next
    requires forall u :: u in b'.frames ==> b'.frames[u] == b.frames[u]
    requires b'.previous == if b.next in accepted then Some(accepted[b.next]) else b.previous
    requires b.previous.None? ==> b.next in accepted
    ensures Faithful(c, b', accepted, played + [Slot(c, accepted, start, b.duration.value, b.next)], start)
  {
    hide FrameDuration, Wrap, Slot, Playlist, LastBefore;
    PlaylistGrows(c, accepted, start, b.duration.value, b.next);
  }

  lemma PlayFaithful(c: Config, b: Buffer, accepted: map<int, AudioFrame>, played: seq<PlaybackItem>, start: int)
    requires b.initialized && Faithful(c, b, accepted, played, start) && b.next in b.frames
    ensures Faithful(c, PlayNext(c, b), accepted, played + [PlayItem(b.next, b.frames[b.next])], start)
  {
    AdvanceFaithful(c, b, PlayNext(c, b), accepted, played, start);
  }

  lemma SkipFaithful(c: Config, b: Buffer, accepted: map<int, AudioFrame>, played: seq<PlaybackItem>, start: int)
    requires b.initialized && Faithful(c, b, accepted, played, start)
    requires b.next !in b.frames && b.previous.Some?
    ensures var stand := Conceal(c, b.previous.value, b.duration.value, b.next);
      Faithful(c, SkipNext(c, b), accepted, played + [ConcealedItem(b.next, stand)], start)
  {
    AdvanceFaithful(c, b, SkipNext(c, b), accepted, played, start);
  }

  lemma PullFaithful(c: Config, b: Buffer, accepted: map<int, AudioFrame>, played: seq<PlaybackItem>, start: int,
                     now: int)
    requires Inv(c, b) && Faithful(c, b, accepted, played, start)
    ensures var (b', item) := Pop(c, b, now);
      Faithful(c, b', accepted, played + Played(Handed(item)), start)
  {
    hide FrameDuration, Wrap, Conceal, PlayNext, SkipNext, Playlist, Faithful;
    var (b', item) := Pop(c, b, now);
    if item.status.Frame? {
      PlayFaithful(c, b, accepted, played, start);
    } else if item.status.Missing? {
      SkipFaithful(c, b, accepted, played, start);
    } else {
      assert SameStream(b, b') && played + Played(Handed(item)) == played;
      SameFaithful(c, b, b', accepted, played, start);
    }
  }

  /** One call keeps the buffer sound and faithful. */
  lemma StepFaithful(c: Config, b: Buffer, accepted: map<int, AudioFrame>, played: seq<PlaybackItem>, start: int,
                     call: Call)
    requires Inv(c, b) && Faithful(c, b, accepted, played, start)
    requires call.Arrive? ==> Arrives(b, call.u, call.frame)
    ensures var (b', answer) := Step(c, b, call);
      && Inv(c, b')
      && Faithful(c, b', if answer == Told(Inserted) then accepted[call.u := call.frame] else accepted,
                  played + Played(answer), if !b.initialized && call.Arrive? then call.u else start)
  {
    match call
    case Arrive(u, frame) =>
      hide Inv, Faithful, Insert;
      InsertKeepsInv(c, b, u, frame);
      ArriveFaithful(c, b, accepted, played, start, u, frame);
      assert played + Played(Step(c, b, call).1) == played;
    case Pull(now) =>
      hide Inv, Faithful, Pop;
      PopKeepsInv(c, b, now);
      PullFaithful(c, b, accepted, played, start, now);
    case Finish =>
      hide Inv, Faithful;
      CloseKeepsInv(c, b);
      SameFaithful(c, b, Close(c, b), accepted, played, start);
      assert played + Played(Done) == played;
  }

  lemma {:induction false} RunFaithful(c: Config, run: seq<Call>)
    requires c.IsValid() && Legal(c, EMPTY, run)
    ensures Inv(c, After(c, EMPTY, run))
    ensures Faithful(c, After(c, EMPTY, run), Accepted(c, EMPTY, run), Emitted(c, EMPTY, run), Start(c, run))
  {
    hide Inv, Faithful, Step;
    if run == [] {
      assert Inv(c, EMPTY) && Faithful(c, EMPTY, map[], [], 0) by {
        EmptyFaithful(c);
      }
    } else {
      var front, call := run[..|run| - 1], run[|run| - 1];
      RunFaithful(c, front);
      StepFaithful(c, After(c, EMPTY, front), Accepted(c, EMPTY, front), Emitted(c, EMPTY, front), Start(c, front),
                   call);
    }
  }

  lemma EmptyFaithful(c: Config)
    requires c.IsValid()
    ensures Inv(c, EMPTY) && Faithful(c, EMPTY, map[], [], 0)
  {
  }

  // ---------------------------------------------------------------- what is played

  /**
   Gap-free, exact playback: the items carry consecutive numbers from the first frame taken in; a
   number that was accepted is played as exactly the accepted frame, any other as the stand-in made
   from the nearest accepted frame before it. Nothing accepted is lost: it is played or still held.
   */
  lemma ExactPlayback(c: Config, run: seq<Call>)
    requires c.IsValid() && Legal(c, EMPTY, run)
    requires Emitted(c, EMPTY, run) != []
    ensures var b, accepted, played, start :=
              After(c, EMPTY, run), Accepted(c, EMPTY, run), Emitted(c, EMPTY, run), Start(c, run);
      && start in accepted && b.duration.Some?
      && b.next == start + |played|
      && (forall i :: 0 <= i < |played| ==> played[i] == Slot(c, accepted, start, b.duration.value, start + i))
      && (forall u :: u in accepted <==> (u in b.frames || (start <= u < b.next && !played[u - start].concealed)))
  {
    hide Legal, After, Accepted, Emitted, Start, Inv, Slot, Faithful;
    RunFaithful(c, run);
    FaithfulPlayback(c, After(c, EMPTY, run), Accepted(c, EMPTY, run), Emitted(c, EMPTY, run), Start(c, run));
  }

  lemma FaithfulPlayback(c: Config, b: Buffer, accepted: map<int, AudioFrame>, played: seq<PlaybackItem>, start: int)
    requires Faithful(c, b, accepted, played, start) && played != []
    ensures start in accepted && b.duration.Some? && b.next == start + |played|
    ensures forall i :: 0 <= i < |played| ==> played[i] == Slot(c, accepted, start, b.duration.value, start + i)
    ensures forall u :: u in accepted <==> (u in b.frames || (start <= u < b.next && !played[u - start].concealed))
  {
    hide InStream, Conceal, Wrap;
    PlaylistAt(c, accepted, start, b.duration.value, b.next - start);
    forall u
      ensures u in accepted <==> (u in b.frames || (start <= u < b.next && !played[u - start].concealed))
    {
      if start <= u < b.next {
        assert played[u - start] == Slot(c, accepted, start, b.duration.value, start + (u - start));
      }
    }
  }

  lemma SlotWord(c: Config, accepted: map<int, AudioFrame>, start: int, duration: nat, u: int)
    requires start in accepted && start <= u
    ensures Slot(c, accepted, start, duration, u).sequence == Wrap(u)
  {
  }

  /** No word comes out twice within 2^64 consecutive items, whatever arrives late or twice. */
  lemma NoRepeats(c: Config, run: seq<Call>, i: nat, j: nat)
    requires c.IsValid() && Legal(c, EMPTY, run)
    requires i < j < |Emitted(c, EMPTY, run)| && j - i < TWO_64
    ensures Emitted(c, EMPTY, run)[i].sequence != Emitted(c, EMPTY, run)[j].sequence
  {
    hide Legal, After, Accepted, Emitted, Start, Slot, Wrap;
    ExactPlayback(c, run);
    var accepted, start, duration := Accepted(c, EMPTY, run), Start(c, run), After(c, EMPTY, run).duration.value;
    SlotWord(c, accepted, start, duration, start + i);
    SlotWord(c, accepted, start, duration, start + j);
    if Wrap(start + i) == Wrap(start + j) {
      WrapInjective(start + i, start + j);
    }
  }

  // ---------------------------------------------------------------- accounting

  function Real(items: seq<PlaybackItem>): nat {
    if items == [] then 0
    else Real(items[..|items| - 1]) + if items[|items| - 1].concealed then 0 else 1
  }

  lemma PullAccounts(c: Config, b: Buffer, now: int)
    requires Inv(c, b)
    ensures var (b', item) := Pop(c, b, now);
      && b'.stats.inserted == b.stats.inserted
      && |b.frames| - |b'.frames| == Real(Played(Handed(item)))
      && b'.stats.missing == b.stats.missing + |Played(Handed(item))| - Real(Played(Handed(item)))
  {
    hide FrameDuration, Wrap, Conceal;
    if b.next in b.frames {
      assert (b.frames - {b.next}).Keys == b.frames.Keys - {b.next};
      assert |b.frames - {b.next}| == |b.frames.Keys - {b.next}| == |b.frames| - 1;
    }
  }

  lemma StepAccounts(c: Config, b: Buffer, call: Call)
    requires Inv(c, b)
    ensures var (b', answer) := Step(c, b, call);
      && b'.stats.inserted == b.stats.inserted + |b'.frames| - |b.frames| + Real(Played(answer))
      && b'.stats.missing == b.stats.missing + |Played(answer)| - Real(Played(answer))
  {
    hide FrameDuration, Wrap, Conceal, Pop;
    if call.Pull? {
      PullAccounts(c, b, call.now);
    }
  }

  lemma RealSum(items: seq<PlaybackItem>, more: seq<PlaybackItem>)
    requires |more| <= 1
    ensures Real(items + more) == Real(items) + Real(more)
  {
    if more != [] {
      assert (items + more)[..|items + more| - 1] == items;
    } else {
      assert items + more == items;
    }
  }

  ghost predicate Accounts(b: Buffer, played: seq<PlaybackItem>) {
    && b.stats.inserted == |b.frames| + Real(played)
    && b.stats.missing == |played| - Real(played)
  }

  lemma {:induction false} RunAccounts(c: Config, run: seq<Call>)
    requires c.IsValid() && Legal(c, EMPTY, run)
    ensures Accounts(After(c, EMPTY, run), Emitted(c, EMPTY, run))
  {
    hide Inv, Faithful, Step;
    if run != [] {
      var front, call := run[..|run| - 1], run[|run| - 1];
      RunAccounts(c, front);
      RunFaithful(c, front);
      StepAccounts(c, After(c, EMPTY, front), call);
      RealSum(Emitted(c, EMPTY, front), Played(Step(c, After(c, EMPTY, front), call).1));
    }
  }

  /** The counters always tell what happened since the buffer was last empty and new. */
  lemma Accounting(c: Config, run: seq<Call>)
    requires c.IsValid() && Legal(c, EMPTY, run)
    ensures var b, played := After(c, EMPTY, run), Emitted(c, EMPTY, run);
      && b.stats.inserted == |b.frames| + Real(played)
      && b.stats.missing == b.stats.concealed == |played| - Real(played)
      && (b.initialized ==> b.next - Start(c, run) == Real(played) + b.stats.missing)
      && b.stats.depth == |b.frames| <= b.stats.maxDepth <= c.capacity
      && (b.state.Buffering? ==> b.stats.depth < c.prebuffer)
  {
    hide Legal, After, Accepted, Emitted, Start, Slot, Real;
    RunAccounts(c, run);
    RunFaithful(c, run);
    var b, start := After(c, EMPTY, run), Start(c, run);
    if b.initialized {
      PlaylistAt(c, Accepted(c, EMPTY, run), start, b.duration.value, b.next - start);
    }
  }

  // ---------------------------------------------------------------- concealment

  /**
   In every sound state a frame whose deadline has passed can be concealed: `Pop` answers `Ended`
   only if the buffer had stopped before. The stand-in is a well-formed frame of the stream with
   the length and duration of the frame before it.
   */
  lemma ConcealmentNeverFails(c: Config, b: Buffer, now: int)
    requires Inv(c, b)
    ensures var item := Pop(c, b, now).1;
      && (item.status.Ended? <==> b.state.Stopped?)
      && (item.concealed <==> item.status.Missing?)
      && (item.concealed ==>
            && item.frame.Some? && b.previous.Some?
            && OfStream(b, item.frame.value) && item.frame.value.WellFormed()
            && |item.frame.value.payload| == |b.previous.value.payload|
            && item.frame.value.sequence == item.sequence == Wrap(b.next))
  {
  }

  // ---------------------------------------------------------------- progress

  lemma {:induction false} RunKeepsInv(c: Config, b: Buffer, run: seq<Call>)
    requires Inv(c, b) && Legal(c, b, run)
    ensures Inv(c, After(c, b, run))
  {
    hide Inv, Insert, Pop, Close;
    if run != [] {
      var front, call := run[..|run| - 1], run[|run| - 1];
      RunKeepsInv(c, b, front);
      match call
      case Arrive(u, frame) => InsertKeepsInv(c, After(c, b, front), u, frame);
      case Pull(now) => PopKeepsInv(c, After(c, b, front), now);
      case Finish => CloseKeepsInv(c, After(c, b, front));
    }
  }

  predicate Playing(b: Buffer) {
    b.state.Ready? || b.state.Draining?
  }

  /** The buffer is past number `n`, has stopped, or is waiting for `n` no longer than `until`. */
  predicate Pressing(b: Buffer, n: int, until: int) {
    || (b.initialized && b.next > n)
    || b.state.Stopped?
    || (b.next == n && b.wait.Some? && b.wait.value <= until && Playing(b))
  }

  lemma PressingStep(c: Config, b: Buffer, call: Call, n: int, until: int)
    requires Inv(c, b) && Pressing(b, n, until)
    ensures Pressing(Step(c, b, call).0, n, until)
  {
    hide FrameDuration, Wrap, Conceal;
  }

  lemma {:induction false} StaysPressing(c: Config, b: Buffer, run: seq<Call>, n: int, until: int)
    requires Inv(c, b) && Legal(c, b, run) && Pressing(b, n, until)
    ensures Pressing(After(c, b, run), n, until)
  {
    hide Inv, Step;
    if run != [] {
      var front := run[..|run| - 1];
      StaysPressing(c, b, front, n, until);
      RunKeepsInv(c, b, front);
      PressingStep(c, After(c, b, front), run[|run| - 1], n, until);
    }
  }

  /**
   Of two pulls at least `missingWait` apart, whatever happens in between, one at or between them
   moves playback on, unless everything has been played.
   */
  lemma Progress(c: Config, b: Buffer, now: int, run: seq<Call>, later: int)
    requires Inv(c, b) && Playing(b) && now + c.missingWait <= later
    requires b.wait.Some? ==> b.wait.value <= now + c.missingWait
    requires Legal(c, Pop(c, b, now).0, run)
    ensures var b' := Pop(c, After(c, Pop(c, b, now).0, run), later).0;
      b'.next > b.next || b'.state.Stopped?
  {
    PopKeepsInv(c, b, now);
    var b1 := Pop(c, b, now).0;
    StaysPressing(c, b1, run, b.next, now + c.missingWait);
    RunKeepsInv(c, b1, run);
    hide FrameDuration, Wrap, Conceal;
  }

  /** No pull of the run is later than `now`. */
  ghost predicate PullsUpTo(run: seq<Call>, now: int) {
    forall i :: 0 <= i < |run| ==> run[i].Pull? ==> run[i].now <= now
  }

  /** A wait is begun by a pull that misses the number at the cursor, and is kept only there. */
  lemma WaitStep(c: Config, b: Buffer, call: Call)
    requires Inv(c, b)
    ensures var b' := Step(c, b, call).0;
      b'.wait.Some? ==>
        && b'.next == b.next
        && (b'.wait == b.wait || (call.Pull? && b'.wait == Some(call.now + c.missingWait) && b.next !in b.frames))
  {
    hide FrameDuration, Wrap, Conceal;
  }

  /** Call `i` of the run pulled in vain at what is still the cursor, and set the deadline. */
  ghost predicate WaitBeganAt(c: Config, run: seq<Call>, i: int) {
    && 0 <= i < |run| && run[i].Pull?
    && After(c, EMPTY, run).wait == Some(run[i].now + c.missingWait)
    && After(c, EMPTY, run[..i]).next == After(c, EMPTY, run).next
    && After(c, EMPTY, run[..i]).next !in After(c, EMPTY, run[..i]).frames
  }

  /**
   A buffer that waits is waiting for the frame at its cursor: the wait began with a pull that
   missed that very number, and ends `missingWait` after it.
   */
  lemma {:induction false} WaitIsForCursor(c: Config, run: seq<Call>)
    requires c.IsValid() && Legal(c, EMPTY, run)
    requires After(c, EMPTY, run).wait.Some?
    ensures exists i :: WaitBeganAt(c, run, i)
  {
    hide Inv, Faithful, Step;
    var front, call := run[..|run| - 1], run[|run| - 1];
    RunFaithful(c, front);
    var b, b' := After(c, EMPTY, front), After(c, EMPTY, run);
    WaitStep(c, b, call);
    if b.wait.Some? && b'.wait == b.wait {
      WaitIsForCursor(c, front);
      var i :| WaitBeganAt(c, front, i);
      assert front[..i] == run[..i] && front[i] == run[i];
      assert WaitBeganAt(c, run, i);
    } else {
      assert WaitBeganAt(c, run, |run| - 1);
    }
  }

  /** `Progress` after any run whose clock has not run backwards. */
  lemma ProgressInRun(c: Config, before: seq<Call>, now: int, between: seq<Call>, later: int)
    requires c.IsValid() && Legal(c, EMPTY, before) && PullsUpTo(before, now) && now + c.missingWait <= later
    requires Playing(After(c, EMPTY, before))
    requires Legal(c, Pop(c, After(c, EMPTY, before), now).0, between)
    ensures var b := After(c, EMPTY, before);
      var b' := Pop(c, After(c, Pop(c, b, now).0, between), later).0;
      b'.next > b.next || b'.state.Stopped?
  {
    RunFaithful(c, before);
    if After(c, EMPTY, before).wait.Some? {
      WaitIsForCursor(c, before);
      var i :| WaitBeganAt(c, before, i);
    }
    Progress(c, After(c, EMPTY, before), now, between, later);
  }

  // ---------------------------------------------------------------- draining

  ghost predicate NoArrivals(run: seq<Call>) {
    forall i :: 0 <= i < |run| ==> !run[i].Arrive?
  }

  ghost predicate Drained(c: Config, b: Buffer, b': Buffer, played: seq<PlaybackItem>, last: int) {
    && Inv(c, b')
    && (b'.state.Draining? || b'.state.Stopped?)
    && |played| <= last - b.next + 1
    && (b'.state.Stopped? <==> |played| == last - b.next + 1)
    && Left(b, b', played)
  }

  /** The part of `Drained` that is about the frames. */
  ghost predicate Left(b: Buffer, b': Buffer, played: seq<PlaybackItem>) {
    && b'.next == b.next + |played|
    && (forall u :: u in b'.frames <==> u in b.frames && b'.next <= u)
    && (forall u :: u in b'.frames ==> b'.frames[u] == b.frames[u])
    && (forall u :: u in b.frames && u < b'.next ==> b.next <= u && played[u - b.next] == PlayItem(u, b.frames[u]))
  }

  lemma LeftStep(c: Config, b: Buffer, b': Buffer, played: seq<PlaybackItem>, call: Call)
    requires Inv(c, b') && Left(b, b', played) && !call.Arrive? && forall u :: u in b.frames ==> b.next <= u
    ensures var (b'', answer) := Step(c, b', call); Left(b, b'', played + Played(answer))
  {
    hide FrameDuration, Wrap, Conceal, InStream;
  }

  lemma DrainStep(c: Config, b: Buffer, b': Buffer, played: seq<PlaybackItem>, call: Call, last: int)
    requires Inv(c, b) && Drained(c, b, b', played, last) && !call.Arrive?
    requires last in b.frames && forall u :: u in b.frames ==> u <= last
    ensures var (b'', answer) := Step(c, b', call); Drained(c, b, b'', played + Played(answer), last)
  {
    hide FrameDuration, Wrap, Conceal, Left, Step, InStream;
    assert forall u :: u in b.frames ==> b.next <= u;
    LeftStep(c, b, b', played, call);
    var (b'', answer) := Step(c, b', call);
    DrainStates(c, b', call);
    LeftCursor(b, b', played, last);
    LeftCursor(b, b'', played + Played(answer), last);
  }

  /** While no frame arrives a draining buffer keeps draining until it is empty. */
  lemma DrainStates(c: Config, b: Buffer, call: Call)
    requires Inv(c, b) && (b.state.Draining? || b.state.Stopped?) && !call.Arrive?
    ensures var (b', answer) := Step(c, b, call);
      && Inv(c, b')
      && |Played(answer)| <= 1
      && (b.state.Stopped? ==> Played(answer) == [])
      && (if |b'.frames| == 0 then b'.state.Stopped? else b'.state.Draining?)
  {
    if call.Pull? {
      PopKeepsInv(c, b, call.now);
    } else {
      CloseKeepsInv(c, b);
    }
    hide FrameDuration, Wrap, Conceal, InStream;
  }

  lemma LeftCursor(b: Buffer, b': Buffer, played: seq<PlaybackItem>, last: int)
    requires Left(b, b', played)
    requires last in b.frames && forall u :: u in b.frames ==> u <= last
    ensures b'.next == b.next + |played|
    ensures |b'.frames| == 0 <==> last < b'.next
  {
    HoldsLast(b, b', last);
  }

  lemma NoMembers(frames: map<int, AudioFrame>)
    requires forall u :: u !in frames.Keys
    ensures |frames| == 0
  {
    assert forall u | u in frames.Keys :: false;
  }

  /** Being empty is the same as being past the last number held. */
  lemma HoldsLast(b: Buffer, b': Buffer, last: int)
    requires last in b.frames && forall u :: u in b.frames ==> u <= last
    requires forall u :: u in b'.frames <==> u in b.frames && b'.next <= u
    ensures |b'.frames| == 0 <==> last < b'.next
  {
    if last < b'.next {
      NoMembers(b'.frames);
    } else {
      assert last in b'.frames;
    }
  }

  /**
   A draining buffer plays every number up to the last one it holds, each held frame among them,
   and stops exactly when it has played that last one.
   */
  lemma {:induction false} DrainExact(c: Config, b: Buffer, run: seq<Call>, last: int)
    requires Inv(c, b) && b.state.Draining? && NoArrivals(run)
    requires last in b.frames && forall u :: u in b.frames ==> u <= last
    ensures Legal(c, b, run)
    ensures Drained(c, b, After(c, b, run), Emitted(c, b, run), last)
  {
    if run != [] {
      hide Step, FrameDuration, Wrap, Conceal;
      var front, call := run[..|run| - 1], run[|run| - 1];
      DrainExact(c, b, front, last);
      DrainStep(c, b, After(c, b, front), Emitted(c, b, front), call, last);
    }
  }

  /** Every pull comes at least `missingWait` after the one before. */
  ghost predicate Spaced(c: Config, run: seq<Call>) {
    && (forall i :: 0 <= i < |run| ==> run[i].Pull?)
    && (forall i :: 0 < i < |run| ==> run[i - 1].now + c.missingWait <= run[i].now)
  }

  /** After a pull at `now` no deadline lies further ahead than `missingWait`. */
  lemma DeadlineNear(c: Config, b: Buffer, now: int)
    requires Inv(c, b) && (b.wait.Some? ==> b.wait.value <= now + c.missingWait)
    ensures var b' := Pop(c, b, now).0; b'.wait.Some? ==> b'.wait.value <= now + c.missingWait
  {
  }

  lemma AfterTwo(c: Config, b: Buffer, run: seq<Call>)
    requires |run| >= 2
    ensures After(c, b, run) ==
      Step(c, Step(c, After(c, b, run[..|run| - 2]), run[|run| - 2]).0, run[|run| - 1]).0
  {
    assert run[..|run| - 1][..|run| - 2] == run[..|run| - 2];
  }

  /** Two such pulls for each number left are enough to play everything and stop. */
  lemma {:induction false} DrainDone(c: Config, b: Buffer, run: seq<Call>, last: int, k: nat)
    requires Inv(c, b) && b.state.Draining? && Spaced(c, run) && |run| == 2 * k
    requires last in b.frames && forall u :: u in b.frames ==> u <= last
    requires b.wait.Some? && run != [] ==> b.wait.value <= run[0].now + c.missingWait
    ensures NoArrivals(run)
    ensures var b' := After(c, b, run);
      && (b'.next >= b.next + k || b'.state.Stopped?)
      && (b'.wait.Some? && run != [] ==> b'.wait.value <= run[|run| - 1].now + c.missingWait)
    ensures k > last - b.next ==> After(c, b, run).state.Stopped?
  {
    DrainExact(c, b, run, last);
    if k > 0 {
      var early := run[..|run| - 2];
      DrainDone(c, b, early, last, k - 1);
      DrainExact(c, b, early, last);
      AfterTwo(c, b, run);
      var b1 := After(c, b, early);
      var now, later := run[|run| - 2].now, run[|run| - 1].now;
      var b2 := Pop(c, b1, now).0;
      hide After, Emitted, Pop, Legal;
      assert b1.wait.Some? ==> b1.wait.value <= now + c.missingWait;
      DeadlineNear(c, b1, now);
      PopKeepsInv(c, b1, now);
      DeadlineNear(c, b2, later);
      if !b1.state.Stopped? {
        NothingBetween(c, b2);
        Progress(c, b1, now, [], later);
      }
    }
  }

  lemma NothingBetween(c: Config, b: Buffer)
    ensures Legal(c, b, []) && After(c, b, []) == b
  {
  }

  // ---------------------------------------------------------------- the wrapped buffer

  lemma {:induction false} LegalPrefix(c: Config, b: Buffer, run: seq<Call>, i: nat)
    requires Legal(c, b, run) && i <= |run|
    ensures Legal(c, b, run[..i])
    decreases |run|
  {
    if i < |run| {
      LegalPrefix(c, b, run[..|run| - 1], i);
      assert run[..|run| - 1][..i] == run[..i];
    } else {
      assert run[..i] == run;
    }
  }

  /**
   The buffer on 64-bit words gives, call by call, the answers of the buffer on unbounded numbers,
   across any number of rollovers.
   */
  method Replay(buffer: JitterBuffer.JitterBuffer, run: seq<Call>) returns (answers: seq<Answer>)
    requires buffer.Valid() && Legal(buffer.config, buffer.model, run)
    modifies buffer
    ensures buffer.Valid()
    ensures buffer.model == After(buffer.config, old(buffer.model), run)
    ensures answers == Answers(buffer.config, old(buffer.model), run)
  {
    answers := [];
    for i := 0 to |run|
      invariant buffer.Valid()
      invariant buffer.model == After(buffer.config, old(buffer.model), run[..i])
      invariant answers == Answers(buffer.config, old(buffer.model), run[..i])
    {
      LegalPrefix(buffer.config, old(buffer.model), run, i + 1);
      assert run[..i + 1][..i] == run[..i];
      var answer: Answer;
      match run[i] {
        case Arrive(u, frame) =>
          var result := buffer.Insert(frame, u);
          answer := Told(result);
        case Pull(now) =>
          var item := buffer.Pop(now);
          answer := Handed(item);
        case Finish =>
          buffer.Close();
          answer := Done;
      }
      answers := answers + [answer];
    }
    assert run[..|run|] == run;
  }
}
