/** The HLS muxer itself: a ring of fragment records, the playlists and the
    files on disk, proved against the stream of fragments. */
module HlsMuxer {
  import opened Bytes
  import opened HlsStream

  // ----------------------------------------------------------- the ring

  /** What a ring slot remembers of a fragment; an empty file name if unused. */
  datatype Info = Info(id: nat, duration: int, discont: bool, file: Option<nat>)

  const UNUSED := Info(0, 0, false, None)

  function InfoOf(id: nat, f: Fragment): Info {
    Info(id, f.Duration(), f.discont, Some(id))
  }

  /** All fragments so far, by id: the closed ones and then the open one. */
  function Archive(s: Stream): seq<Fragment> {
    seq(|s.closed|, i requires 0 <= i < |s.closed| => s.closed[i].f)
    + if s.open.Some? then [s.open.value] else []
  }

  /** Slot k mod capacity holds fragment k for each of the last `capacity` ids;
      a slot no fragment has reached is unused. */
  ghost predicate RingHolds(ring: seq<Info>, archive: seq<Fragment>) {
    && |ring| > 0
    && (forall k {:trigger archive[k]} :: 0 <= k < |archive| && |archive| - |ring| <= k ==>
                                            ring[k % |ring|] == InfoOf(k, archive[k]))
    && (forall j :: |archive| <= j < |ring| ==> ring[j].file == None)
  }

  lemma ModDistinct(k: nat, n: nat, cap: nat)
    requires k < n < k + cap
    ensures k % cap != n % cap
  {
    if k % cap == n % cap {
      var p, q := k / cap, n / cap;
      assert k == cap * p + k % cap && n == cap * q + n % cap;
      assert n - k == cap * (q - p);
      if q - p >= 1 {
        MulAtLeast(cap, q - p);
      } else {
        MulAtMost(cap, q - p);
      }
      assert false;
    }
  }

  lemma MulAtLeast(c: nat, d: int)
    requires d >= 1
    ensures c * d >= c
  {
  }

  lemma MulNegated(c: nat, d: int)
    ensures c * (-d) == -(c * d)
  {
  }

  lemma MulAtMost(c: nat, d: int)
    requires d <= 0
    ensures c * d <= 0
  {
  }

  lemma ModSmall(j: nat, cap: nat)
    requires j < cap
    ensures j % cap == j
  {
  }

  /** The slot of the next id takes the next fragment. */
  lemma RingPush(ring: seq<Info>, archive: seq<Fragment>, f: Fragment)
    requires RingHolds(ring, archive)
    ensures var n := |archive|;
            RingHolds(ring[n % |ring| := InfoOf(n, f)], archive + [f])
  {
    var n, cap := |archive|, |ring|;
    var r, a := ring[n % cap := InfoOf(n, f)], archive + [f];
    forall k {:trigger a[k]} | 0 <= k < |a| && |a| - cap <= k
      ensures r[k % cap] == InfoOf(k, a[k])
    {
      if k < n {
        ModDistinct(k, n, cap);
        assert a[k] == archive[k];
      }
    }
    forall j | |a| <= j < cap
      ensures r[j].file == None
    {
      ModSmall(n, cap);
    }
  }

  /** The slot of the newest fragment is brought up to date. */
  lemma RingUpdate(ring: seq<Info>, archive: seq<Fragment>, f: Fragment)
    requires RingHolds(ring, archive) && archive != []
    ensures var n := |archive| - 1;
            RingHolds(ring[n % |ring| := InfoOf(n, f)], archive[n := f])
  {
    var n, cap := |archive| - 1, |ring|;
    var r, a := ring[n % cap := InfoOf(n, f)], archive[n := f];
    forall k {:trigger a[k]} | 0 <= k < |a| && |a| - cap <= k
      ensures r[k % cap] == InfoOf(k, a[k])
    {
      if k < n {
        ModDistinct(k, n, cap);
        assert a[k] == archive[k];
      }
    }
    forall j | |a| <= j < cap
      ensures r[j].file == None
    {
      ModSmall(n, cap);
    }
  }

  /** The slot that comes next holds the fragment one whole round back, if any. */
  lemma RingOldest(ring: seq<Info>, archive: seq<Fragment>)
    requires RingHolds(ring, archive)
    ensures var n, cap := |archive|, |ring|;
            ring[n % cap].file == if n >= cap then Some(n - cap) else None
  {
    var n, cap := |archive|, |ring|;
    if n >= cap {
      var k := n - cap;
      assert ring[k % cap] == InfoOf(k, archive[k]);
      ModRound(k, cap);
    } else {
      ModSmall(n, cap);
    }
  }

  lemma ModRound(k: nat, cap: nat)
    requires cap > 0
    ensures (k + cap) % cap == k % cap
  {
    var p, q := k / cap, (k + cap) / cap;
    assert k == cap * p + k % cap && k + cap == cap * q + (k + cap) % cap;
    var d := (k + cap) % cap - k % cap;
    assert d == cap * (p + 1 - q);
    if p + 1 - q >= 1 {
      MulAtLeast(cap, p + 1 - q);
      assert false;
    } else if p + 1 - q <= -1 {
      MulAtLeast(cap, q - p - 1);
      MulNegated(cap, q - p - 1);
      assert false;
    }
  }

  // ------------------------------------------------------ playlists, files

  datatype Entry = Entry(file: nat, duration: int, discont: bool)

  datatype Playlist = Playlist(mediaSequence: nat, entries: seq<Entry>, ended: bool)

  function EntryOf(id: nat, c: Closed): Entry {
    Entry(id, c.f.Duration(), c.f.discont)
  }

  /** The closed fragments from an id on, with consecutive ids. */
  function Entries(closed: seq<Closed>, from: nat): (r: seq<Entry>)
    requires from <= |closed|
    ensures |r| == |closed| - from
  {
    seq(|closed| - from, i requires 0 <= i < |closed| - from => EntryOf(from + i, closed[from + i]))
  }

  function FirstListed(cfg: Config, closed: seq<Closed>): (id: nat)
    ensures id <= |closed| && |closed| - id <= cfg.fragmentNum
  {
    if |closed| <= cfg.fragmentNum then 0 else |closed| - cfg.fragmentNum
  }

  /** The live playlist lists the last fragmentNum closed fragments. */
  function LivePlaylist(cfg: Config, closed: seq<Closed>, ended: bool): Playlist {
    var first := FirstListed(cfg, closed);
    Playlist(first, Entries(closed, first), ended)
  }

  /** The smallest id whose file is still there. */
  function FirstKept(cfg: Config, closed: seq<Closed>): nat {
    if cfg.cleanupMode == Asap && |closed| >= cfg.Capacity() then |closed| - cfg.Capacity() + 1 else 0
  }

  function Disk(cfg: Config, s: Stream): map<nat, seq<Chunk>> {
    map id: nat | FirstKept(cfg, s.closed) <= id < |Archive(s)| :: Archive(s)[id].Content()
  }

  /** No file a playlist lists has been deleted, and as soon as deletion is on
      no more than fragmentNum + deleteThreshold closed files remain. */
  lemma ListedFilesExist(cfg: Config, s: Stream, ended: bool)
    ensures forall e :: e in LivePlaylist(cfg, s.closed, ended).entries ==> e.file in Disk(cfg, s)
    ensures cfg.cleanupMode == Asap ==>
              |s.closed| - FirstKept(cfg, s.closed) <= cfg.fragmentNum + cfg.deleteThreshold
    ensures forall id :: id in Disk(cfg, s) && id < |s.closed| ==> FirstKept(cfg, s.closed) <= id
  {
    var first := FirstListed(cfg, s.closed);
    var entries := Entries(s.closed, first);
    forall i | 0 <= i < |entries|
      ensures entries[i].file in Disk(cfg, s)
    {
      assert entries[i] == EntryOf(first + i, s.closed[first + i]);
      assert FirstKept(cfg, s.closed) <= first + i < |s.closed| <= |Archive(s)|;
    }
  }

  /** The live playlist of a run: at most fragmentNum entries, numbered on from the
      media sequence, each with the time from its opening frame to the latest one. */
  lemma WhatIsListed(cfg: Config, events: seq<Event>, ended: bool)
    ensures var closed := Run(cfg, events).closed;
            var p := LivePlaylist(cfg, closed, ended);
            && p.ended == ended
            && p.mediaSequence == (if |closed| > cfg.fragmentNum then |closed| - cfg.fragmentNum else 0)
            && |p.entries| == |closed| - p.mediaSequence
            && forall i :: 0 <= i < |p.entries| ==>
                 var id := p.mediaSequence + i;
                 && ClosedOk(events, closed[id])
                 && p.entries[i].file == id && p.entries[i].discont == closed[id].f.discont
                 && p.entries[i].duration == LargestClock(events[closed[id].f.at..closed[id].until + 1])
                                             - events[closed[id].f.at].frame.Clock()
  {
    hide Run, ClosedOk, Follows, Covers, LargestClock;
    FragmentsAreStretches(cfg, events);
    var closed := Run(cfg, events).closed;
    var p := LivePlaylist(cfg, closed, ended);
    forall i | 0 <= i < |p.entries|
      ensures var id := p.mediaSequence + i;
              && ClosedOk(events, closed[id]) && p.entries[i] == EntryOf(id, closed[id])
              && closed[id].f.at < closed[id].until < |events| && events[closed[id].f.at].Feed?
              && closed[id].f.Duration() == LargestClock(events[closed[id].f.at..closed[id].until + 1])
                                            - events[closed[id].f.at].frame.Clock()
    {
      DurationIsTold(events, closed[p.mediaSequence + i]);
    }
  }

  lemma DurationIsTold(events: seq<Event>, c: Closed)
    requires ClosedOk(events, c)
    ensures c.f.at < c.until < |events| && events[c.f.at].Feed?
    ensures c.f.Duration() == LargestClock(events[c.f.at..c.until + 1]) - events[c.f.at].frame.Clock()
  {
    hide LargestClock, CurrentPatPmt, Chunks;
  }

  /** The files of a run: with ASAP cleaning those of the last fragmentNum +
      deleteThreshold closed fragments, otherwise all, and the open one; in each the
      tables of its opening and then what was fed until it was closed. */
  lemma WhatIsOnDisk(cfg: Config, events: seq<Event>)
    ensures var s := Run(cfg, events);
            var c, d := |s.closed|, Disk(cfg, s);
            && (forall id: nat :: id < c ==>
                  && ClosedOk(events, s.closed[id])
                  && (id in d <==> cfg.cleanupMode != Asap || id + cfg.fragmentNum + cfg.deleteThreshold >= c)
                  && (id in d ==> d[id] == [CurrentPatPmt(events[..s.closed[id].f.at])]
                                           + Chunks(events[s.closed[id].f.at..s.closed[id].until])))
            && (forall id: nat :: id in d && c <= id ==> id == c && s.open.Some?)
            && (s.open.Some? ==> && Covers(events, s.open.value, |events|) && c in d
                                 && d[c] == [CurrentPatPmt(events[..s.open.value.at])]
                                            + Chunks(events[s.open.value.at..|events|]))
  {
    hide Run, LargestClock, CurrentPatPmt, Chunks, Follows;
    FragmentsAreStretches(cfg, events);
    var s := Run(cfg, events);
    ArchiveLength(s);
    assert FirstKept(cfg, s.closed) <= |s.closed|;
    assert s.open.Some? ==> Archive(s)[|s.closed|] == s.open.value;
    forall id: nat | id < |s.closed|
      ensures Archive(s)[id] == s.closed[id].f && ClosedOk(events, s.closed[id])
    {
    }
  }

  /** Opening a fragment takes the next slot and the next file. */
  lemma OpenedRing(cfg: Config, s: Stream, t: Stream, ring: seq<Info>)
    requires RingHolds(ring, Archive(s)) && s.open == None && t.closed == s.closed && t.open.Some?
    ensures var n, f := |s.closed|, t.open.value;
            && RingHolds(ring[n % |ring| := InfoOf(n, f)], Archive(t))
            && Disk(cfg, t) == Disk(cfg, s)[n := f.Content()]
  {
    hide RingHolds;
    var n, f := |s.closed|, t.open.value;
    RingPush(ring, Archive(s), f);
    assert Archive(t) == Archive(s) + [f];
    DiskGrows(cfg, s, t);
  }

  lemma DiskGrows(cfg: Config, s: Stream, t: Stream)
    requires s.closed == t.closed && t.open.Some?
    requires Archive(t) == Archive(s)[..|s.closed|] + [t.open.value]
    ensures Disk(cfg, t) == Disk(cfg, s)[|s.closed| := t.open.value.Content()]
  {
    hide Archive;
    ArchiveLength(s);
    var n := |s.closed|;
    var d, e := Disk(cfg, s)[n := t.open.value.Content()], Disk(cfg, t);
    assert FirstKept(cfg, s.closed) <= n;
    forall id: nat
      ensures id in d <==> id in e
      ensures id in d ==> d[id] == e[id]
    {
      if id < n && FirstKept(cfg, s.closed) <= id {
        assert Archive(t)[id] == Archive(s)[id];
      }
    }
    assert d.Keys == e.Keys;
  }

  /** Changing the open fragment changes its slot and its file. */
  lemma ChangedRing(cfg: Config, s: Stream, t: Stream, ring: seq<Info>)
    requires RingHolds(ring, Archive(s)) && s.open.Some? && t.closed == s.closed && t.open.Some?
    ensures var n, f := |s.closed|, t.open.value;
            && ring[n % |ring|] == InfoOf(n, s.open.value)
            && n in Disk(cfg, s) && Disk(cfg, s)[n] == s.open.value.Content()
            && RingHolds(ring[n % |ring| := InfoOf(n, f)], Archive(t))
            && Disk(cfg, t) == Disk(cfg, s)[n := f.Content()]
  {
    var n := |s.closed|;
    assert ring[n % |ring|] == InfoOf(n, Archive(s)[n]);
    RingUpdate(ring, Archive(s), t.open.value);
    assert Archive(t) == Archive(s)[n := t.open.value];
    DiskGrows(cfg, s, t);
  }

  /** Each close deletes exactly the file one ring round back, when there is one. */
  lemma CloseDeletesOne(cfg: Config, s: Stream, cause: Cause)
    requires s.open.Some?
    ensures var t := Close(s, cause);
            var c := |t.closed|;
            && Archive(t) == Archive(s)
            && Disk(cfg, t) == (if cfg.cleanupMode == Asap && c >= cfg.Capacity()
                                then Disk(cfg, s) - {c - cfg.Capacity()} else Disk(cfg, s))
            && (cfg.cleanupMode == Asap && c >= cfg.Capacity() ==> c - cfg.Capacity() in Disk(cfg, s))
  {
    var t := Close(s, cause);
    assert Archive(t) == Archive(s);
    var c := |t.closed|;
    if cfg.cleanupMode == Asap && c >= cfg.Capacity() {
      assert FirstKept(cfg, s.closed) == c - cfg.Capacity() < |Archive(s)|;
    }
  }

  // ------------------------------------------------------------- the muxer

  class Muxer {
    const cfg: Config
    const frags: array<Info>
    var isOpen: bool
    var fragTs: nat
    var fragLastTs: nat
    var nfrags: nat
    var frag: nat
    var patpmt: Chunk
    var videoSeen: bool
    var forceCutOnNextKey: bool
    var forceCutOnNextAudioBoundary: bool
    var livePlaylist: Option<Playlist>
    var recordPlaylist: seq<Entry>
    ghost var disk: map<nat, seq<Chunk>>
    ghost var view: Stream
    ghost var events: seq<Event>

    /** The fields without the ring. */
    ghost predicate FieldsValid()
      reads this
    {
      && nfrags == Listed(|view.closed|) && frag == |view.closed| - Listed(|view.closed|)
      && (isOpen <==> view.open.Some?)
      && (isOpen ==> fragTs == view.open.value.openTs <= fragLastTs == view.open.value.lastTs)
      && patpmt == view.patpmt && videoSeen == view.videoSeen
      && forceCutOnNextKey == view.forceKey && forceCutOnNextAudioBoundary == view.forceAudio
    }

    ghost predicate FilesValid()
      reads this
    {
      && disk == Disk(cfg, view)
      && (view.closed == [] ==> livePlaylist == None)
      && (view.closed != [] ==> livePlaylist.Some?
                                && livePlaylist.value == LivePlaylist(cfg, view.closed, livePlaylist.value.ended))
      && recordPlaylist == if cfg.cleanupMode == Asap then [] else Entries(view.closed, 0)
    }

    ghost predicate Valid()
      reads this, frags
    {
      && frags.Length == cfg.Capacity() && RingHolds(frags[..], Archive(view))
      && FieldsValid() && FilesValid()
    }

    constructor (cfg: Config)
      ensures Valid() && view == INITIAL && events == [] && this.cfg == cfg
      ensures fresh(frags)
    {
      this.cfg := cfg;
      frags := new Info[cfg.Capacity()](_ => UNUSED);
      isOpen, fragTs, fragLastTs, nfrags, frag := false, 0, 0, 0, 0;
      patpmt, videoSeen, forceCutOnNextKey, forceCutOnNextAudioBoundary := [], false, false, false;
      livePlaylist, recordPlaylist := None, [];
      disk, view, events := map[], INITIAL, [];
    }

    function GetFrag(n: nat): (i: nat)
      requires frags.Length == cfg.Capacity()
      reads this
      ensures i < frags.Length
    {
      (frag + n) % cfg.Capacity()
    }

    method FeedPatPmt(b: Chunk)
      requires Valid() && view == Run(cfg, events)
      modifies this
      ensures Valid() && view == Run(cfg, events) && events == old(events) + [PatPmt(b)]
    {
      hide Run, Archive, RingHolds, LivePlaylist, Entries;
      patpmt := b;
      RunPush(cfg, events, PatPmt(b));
      view := view.(patpmt := b);
      SameArchive(old(view), view);
      CountEvent(PatPmt(b));
    }

    /** Dispose: the open fragment, if any, is the last. */
    method Dispose()
      requires Valid() && view == Run(cfg, events)
      modifies this, frags
      ensures Valid() && view == Run(cfg, events) && events == old(events) + [HlsStream.Dispose]
      ensures old(isOpen) ==> livePlaylist.Some? && livePlaylist.value.ended
    {
      hide Run, Archive, RingHolds, Disk, Entries;
      RunPush(cfg, events, HlsStream.Dispose);
      CloseFragment(true, ByDispose);
      CountEvent(HlsStream.Dispose);
    }

    method FeedMpegts(tsPackets: Chunk, frame: Frame, boundary: bool)
      requires Valid() && view == Run(cfg, events)
      modifies this, frags
      ensures Valid() && view == Run(cfg, events) && events == old(events) + [Feed(tsPackets, frame, boundary)]
      ensures view == Step(cfg, old(view), Feed(tsPackets, frame, boundary))
      ensures view.closed == old(view).closed || (livePlaylist.Some? && !livePlaylist.value.ended)
    {
      hide Run, Archive, RingHolds, Disk, LivePlaylist, Entries, Decide, Step, Write, FieldsValid, FilesValid;
      StepOfFeed(cfg, view, tsPackets, frame, boundary);
      NoteVideo(frame);
      UpdateFragment(frame.Clock(), boundary, frame);
      if IsOpen() {
        WriteFile(tsPackets);
      } else {
        WriteNothing(view, tsPackets);
      }
      RunPush(cfg, events, Feed(tsPackets, frame, boundary));
      CountEvent(Feed(tsPackets, frame, boundary));
    }

    predicate IsOpen()
      requires Valid()
      reads this, frags
      ensures IsOpen() <==> view.open.Some?
      ensures IsOpen() <==> isOpen
    {
      isOpen
    }

    method NoteVideo(frame: Frame)
      requires Valid()
      modifies `videoSeen, `view
      ensures Valid() && view == old(view).(videoSeen := old(view).videoSeen || frame.sid == VIDEO_STREAM)
    {
      hide Archive, RingHolds, Disk, LivePlaylist, Entries;
      if frame.sid == VIDEO_STREAM {
        videoSeen := true;
      }
      view := view.(videoSeen := videoSeen);
      SameArchive(old(view), view);
    }

    ghost method CountEvent(e: Event)
      requires Valid()
      modifies `view, `events
      ensures Valid() && view == old(view).(n := old(view).n + 1) && events == old(events) + [e]
    {
      hide Archive, RingHolds, Disk, LivePlaylist, Entries;
      view := view.(n := view.n + 1);
      events := events + [e];
      SameArchive(old(view), view);
    }

    /** Appends to the file of the open fragment. */
    method WriteFile(b: Chunk)
      requires Valid() && isOpen
      modifies `disk, `view
      ensures Valid() && view == Write(old(view), b) && isOpen && view.closed == old(view).closed
    {
      hide Archive, RingHolds, Disk, LivePlaylist, Entries;
      ghost var id := |view.closed|;
      ghost var written := Write(view, b);
      ChangedRing(cfg, view, written, frags[..]);
      ghost var f := view.open.value;
      assert [f.patpmt] + (f.packets + [b]) == ([f.patpmt] + f.packets) + [b];
      assert frags[..][id % frags.Length := InfoOf(id, written.open.value)] == frags[..];
      disk := disk[id := disk[id] + [b]];
      view := written;
    }

    method UpdateFragment(ts: nat, boundary: bool, frame: Frame)
      requires Valid() && ts == frame.Clock()
      modifies this, frags
      ensures Valid() && view == Decide(cfg, old(view), frame, boundary) && events == old(events)
      ensures view.closed == old(view).closed || (livePlaylist.Some? && !livePlaylist.value.ended)
    {
      hide Archive, RingHolds, Disk, LivePlaylist, Entries, Decide, FilesValid;
      DecideCases(cfg, view, frame, boundary);
      var discont := true;
      if isOpen {
        discont := false;
        AdvanceFragment(ts);
        if frame.sid == VIDEO_STREAM || !videoSeen {
          if ShouldForceSplit(ts) {
            SetFlags(false, false);
            CloseFragment(false, ByJump);
            var ok := OpenFragment(ts, true, AfterJump);
            return;
          }
        }
        if frags[GetFrag(nfrags)].duration >= cfg.Max() {
          if videoSeen {
            SetFlags(true, forceCutOnNextAudioBoundary);
          } else {
            SetFlags(forceCutOnNextKey, true);
          }
        }
        if frags[GetFrag(nfrags)].duration < cfg.Target() {
          if !(boundary && (forceCutOnNextKey || forceCutOnNextAudioBoundary)) {
            return;
          }
        }
      }
      if boundary {
        var needCut := false;
        var discontNext := true;
        if isOpen {
          discontNext := discont;
          if forceCutOnNextKey {
            needCut := true;
            discontNext := true;
            SetFlags(false, forceCutOnNextAudioBoundary);
          } else if forceCutOnNextAudioBoundary {
            needCut := true;
            discontNext := true;
            SetFlags(forceCutOnNextKey, false);
          } else if frags[GetFrag(nfrags)].duration >= cfg.Target() {
            needCut := true;
          }
        } else {
          needCut := true;
          discontNext := true;
        }
        if needCut {
          CloseFragment(false, ByBoundary);
          var ok := OpenFragment(ts, discontNext, AtBoundary);
        }
      }
    }

    method SetFlags(key: bool, audio: bool)
      requires Valid()
      modifies `forceCutOnNextKey, `forceCutOnNextAudioBoundary, `view
      ensures Valid() && view == old(view).(forceKey := key, forceAudio := audio)
    {
      hide Archive, RingHolds, LivePlaylist, Entries;
      forceCutOnNextKey, forceCutOnNextAudioBoundary := key, audio;
      view := view.(forceKey := key, forceAudio := audio);
      SameArchive(old(view), view);
    }

    predicate ShouldForceSplit(ts: nat)
      reads this
    {
      (ts > fragTs && ts - fragTs > cfg.PositiveJump()) || (fragTs > ts && fragTs - ts > NEGATIVE_JUMP)
    }

    /** The largest timestamp and the duration of the open fragment. */
    method AdvanceFragment(ts: nat)
      requires Valid() && isOpen
      modifies `fragLastTs, `view, frags
      ensures Valid() && isOpen && view == old(view).(open := Some(Later(old(view).open.value, ts)))
      ensures frags[GetFrag(nfrags)].duration == view.open.value.Duration()
    {
      hide Archive, RingHolds, Disk, LivePlaylist, Entries;
      ghost var id, was := |view.closed|, frags[..];
      ghost var later := view.(open := Some(Later(view.open.value, ts)));
      ChangedRing(cfg, view, later, was);
      if ts > fragLastTs {
        fragLastTs := ts;
      }
      var f := GetFrag(nfrags);
      if fragLastTs > fragTs {
        var span := fragLastTs - fragTs;
        if span > frags[f].duration {
          frags[f] := frags[f].(duration := span);
        }
      }
      view := later;
      assert frags[..] == was[id % frags.Length := InfoOf(id, later.open.value)];
      assert disk[id := disk[id]] == disk;
    }

    /** Calibrating the duration at the close never changes it. */
    method FinalizeClosingFragmentDuration()
      requires Valid() && isOpen
      modifies frags
      ensures frags[..] == old(frags[..])
    {
      hide Archive, RingHolds, Disk, LivePlaylist, Entries;
      var f := GetFrag(nfrags);
      ChangedRing(cfg, view, view, frags[..]);
      if fragLastTs > fragTs {
        var d := fragLastTs - fragTs;
        if d > frags[f].duration {
          // the only case in which the record would change
          assert false;
        }
      }
    }

    /** Opens the next fragment; an error, and nothing done, while one is open. */
    method OpenFragment(ts: nat, discont: bool, ghost opening: Opening) returns (ok: bool)
      requires Valid()
      modifies `isOpen, `fragTs, `fragLastTs, `disk, `view, frags
      ensures Valid() && ok == !old(isOpen)
      ensures view == if ok then Open(old(view), ts, discont, opening) else old(view)
    {
      hide Archive, RingHolds, Disk, LivePlaylist, Entries;
      if isOpen {
        return false;
      }
      var id := frag + nfrags;
      ghost var was, next := frags[..], Open(view, ts, discont, opening);
      OpenedRing(cfg, view, next, was);
      disk := disk[id := [patpmt]];
      isOpen := true;
      var f := GetFrag(nfrags);
      frags[f] := Info(id, 0, discont, Some(id));
      fragTs := ts;
      fragLastTs := ts;
      view := next;
      assert frags[..] == was[id % frags.Length := InfoOf(id, next.open.value)];
      assert [patpmt] == [patpmt] + [];
      return true;
    }

    /** Closes the open fragment, if there is one. */
    method CloseFragment(isLast: bool, ghost cause: Cause)
      requires Valid()
      modifies `isOpen, `nfrags, `frag, `livePlaylist, `recordPlaylist, `disk, `view, frags
      ensures Valid() && !isOpen && view == Close(old(view), cause)
      ensures old(isOpen) ==> livePlaylist == Some(LivePlaylist(cfg, view.closed, isLast))
                              && livePlaylist.value.ended == isLast
    {
      hide Archive, RingHolds, Disk, LivePlaylist, Entries, FieldsValid;
      if !IsOpen() {
        return;
      }
      FinalizeClosingFragmentDuration();
      EndFragment(cause);
      AfterClose(isLast);
    }

    /** The open fragment becomes the last closed one. */
    method EndFragment(ghost cause: Cause)
      requires Valid() && isOpen
      modifies `isOpen, `nfrags, `frag, `view
      ensures FieldsValid() && !isOpen && view == Close(old(view), cause)
      ensures view.closed != [] && RingHolds(frags[..], Archive(view))
      ensures recordPlaylist == if cfg.cleanupMode == Asap then [] else Entries(view.closed[..|view.closed| - 1], 0)
      ensures var c := |view.closed|;
              Disk(cfg, view) == if cfg.cleanupMode == Asap && c >= cfg.Capacity()
                                 then disk - {c - cfg.Capacity()} else disk
    {
      hide Archive, RingHolds, Disk, LivePlaylist, Entries, Close;
      CloseDeletesOne(cfg, view, cause);
      CloseAppends(view, cause);
      isOpen := false;
      view := Close(view, cause);
      IncrFrag(|old(view).closed|);
    }

    /** Playlists and clean-up, once the sequence numbers have moved on. */
    method AfterClose(isLast: bool)
      requires frags.Length == cfg.Capacity() && RingHolds(frags[..], Archive(view)) && FieldsValid() && !isOpen
      requires view.closed != []
      requires recordPlaylist == if cfg.cleanupMode == Asap then [] else Entries(view.closed[..|view.closed| - 1], 0)
      requires var c := |view.closed|;
               Disk(cfg, view) == if cfg.cleanupMode == Asap && c >= cfg.Capacity()
                                  then disk - {c - cfg.Capacity()} else disk
      modifies `livePlaylist, `recordPlaylist, `disk
      ensures FieldsValid() && FilesValid() && livePlaylist == Some(LivePlaylist(cfg, view.closed, isLast))
      ensures livePlaylist.value.ended == isLast
    {
      hide Archive, RingHolds, Disk, LivePlaylist, Entries;
      WritePlaylist(isLast);
      if cfg.cleanupMode == Never || cfg.cleanupMode == InTheEnd {
        WriteRecordPlaylist();
      }
      if cfg.cleanupMode == Asap {
        RemoveStaleFile();
      }
    }

    /** Deletes the file whose slot the next fragment will take. */
    method RemoveStaleFile()
      requires frags.Length == cfg.Capacity() && RingHolds(frags[..], Archive(view)) && FieldsValid() && !isOpen
      modifies `disk
      ensures disk == var c := |view.closed|;
                      if c >= cfg.Capacity() then old(disk) - {c - cfg.Capacity()} else old(disk)
    {
      hide RingHolds, Archive;
      RingOldest(frags[..], Archive(view));
      ArchiveLength(view);
      var stale := frags[GetFrag(nfrags)];
      assert stale == frags[..][|view.closed| % frags.Length];
      if stale.file.Some? {
        disk := disk - {stale.file.value};
      }
    }

    /** One more fragment is closed: the window of listed fragments is the last
        fragmentNum of the c + 1 there are now. */
    method IncrFrag(ghost c: nat)
      requires nfrags == Listed(c) && frag == c - Listed(c)
      modifies `nfrags, `frag
      ensures nfrags == Listed(c + 1) && frag == c + 1 - Listed(c + 1)
    {
      if nfrags == cfg.fragmentNum {
        frag := frag + 1;
      } else {
        nfrags := nfrags + 1;
      }
    }

    /** How many of c closed fragments are listed. */
    ghost function Listed(c: nat): nat {
      if c < cfg.fragmentNum then c else cfg.fragmentNum
    }

    /** The live playlist: the records of the ring from `frag` on. */
    method WritePlaylist(isLast: bool)
      requires frags.Length == cfg.Capacity() && RingHolds(frags[..], Archive(view)) && FieldsValid() && !isOpen
      modifies `livePlaylist
      ensures livePlaylist == Some(LivePlaylist(cfg, view.closed, isLast)) && livePlaylist.value.ended == isLast
    {
      var entries: seq<Entry> := [];
      for i := 0 to nfrags
        invariant |entries| == i
        invariant forall k :: 0 <= k < i ==> entries[k] == EntryOf(frag + k, view.closed[frag + k])
      {
        assert Archive(view)[frag + i] == view.closed[frag + i].f;
        var f := frags[GetFrag(i)];
        assert f == frags[..][(frag + i) % frags.Length];
        entries := entries + [Entry(f.file.value, f.duration, f.discont)];
      }
      livePlaylist := Some(Playlist(frag, entries, isLast));
      assert entries == Entries(view.closed, frag);
    }

    /** The record playlist: one more entry, for the fragment just closed. */
    method WriteRecordPlaylist()
      requires frags.Length == cfg.Capacity() && RingHolds(frags[..], Archive(view)) && FieldsValid() && !isOpen
      requires view.closed != [] && recordPlaylist == Entries(view.closed[..|view.closed| - 1], 0)
      modifies `recordPlaylist
      ensures recordPlaylist == Entries(view.closed, 0)
    {
      ghost var id := |view.closed| - 1;
      var f := frags[(frag + nfrags - 1) % cfg.Capacity()];
      assert Archive(view)[id] == view.closed[id].f;
      assert f == frags[..][id % frags.Length];
      recordPlaylist := recordPlaylist + [Entry(f.file.value, f.duration, f.discont)];
      assert recordPlaylist == Entries(view.closed, 0);
    }
  }

  lemma StepOfFeed(cfg: Config, s: Stream, packets: Chunk, fr: Frame, boundary: bool)
    ensures var seen := s.(videoSeen := s.videoSeen || fr.sid == VIDEO_STREAM);
            Step(cfg, s, Feed(packets, fr, boundary)) == Write(Decide(cfg, seen, fr, boundary), packets).(n := s.n + 1)
    ensures var seen := s.(videoSeen := s.videoSeen || fr.sid == VIDEO_STREAM);
            Write(Decide(cfg, seen, fr, boundary), packets).n == s.n
  {
    hide Decide;
    DecideKeepsBodies(cfg, s.(videoSeen := s.videoSeen || fr.sid == VIDEO_STREAM), fr, boundary);
  }

  lemma WriteNothing(s: Stream, packets: Chunk)
    requires s.open == None
    ensures Write(s, packets) == s
  {
  }

  /** A close changes nothing but the fragments, and adds one. */
  lemma CloseAppends(s: Stream, cause: Cause)
    requires s.open.Some?
    ensures var t := Close(s, cause);
            && t.open == None && t == s.(closed := t.closed, open := None)
            && |t.closed| == |s.closed| + 1 && t.closed[..|t.closed| - 1] == s.closed
  {
  }

  lemma ArchiveLength(s: Stream)
    ensures |Archive(s)| == |s.closed| + if s.open.Some? then 1 else 0
  {
  }

  /** Fields that are not about fragments do not matter to the archive. */
  lemma SameArchive(s: Stream, t: Stream)
    requires s.closed == t.closed && s.open == t.open
    ensures Archive(s) == Archive(t)
    ensures forall cfg :: Disk(cfg, s) == Disk(cfg, t)
  {
  }
}
