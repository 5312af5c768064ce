/**
  Two runs of the player that go wrong: a file that stalls it, and a device that refuses
  bytes which the clock counts as played.
  */
module PlayerExamples {
  import opened Options
  import opened PlayerModel
  import opened PlayerInvariant
  import opened PlayerSafety
  import opened PlayerFile
  import opened PlayerFileStall

  // ---------------------------------------------------------------- a file that stalls

  /** One frame per packet. */
  function FrameEach(ps: seq<Packet>, f: Frame): seq<Frame> {
    seq(|ps|, (i: nat) => f)
  }

  lemma FrameEachIsCumulative(f: Frame)
    ensures Cumulative(ps => FrameEach(ps, f))
  {
  }

  /** Frames one second into the video, and no sound. */
  const LATE_FRAME: Frame := Frame(0, Some(1000))

  const SILENT: Config := Config(2, 44100, 1, 1000, ps => [], ps => FrameEach(ps, LATE_FRAME), frames => 0)

  /** Nothing but video, one packet more than the queue and the hand of the video thread hold. */
  const VIDEO_ONLY: seq<Packet> := seq(201, (i: nat) => Packet(i, Some(Video)))

  lemma {:induction false} AllVideo(ps: seq<Packet>)
    requires forall p :: p in ps ==> p.kind == Some(Video)
    ensures VideoOf(ps) == ps && AudioOf(ps) == []
  {
    if ps != [] {
      AllVideo(Before(ps));
      assert ps[|ps| - 1] in ps;
      assert ps == Before(ps) + [ps[|ps| - 1]];
    }
  }

  lemma FirstFrameIsLate()
    ensures SILENT.PtsSeconds(LATE_FRAME) == 1.0 && SILENT.ClockSeconds(0) == 0.0
    ensures SILENT.Ahead(LATE_FRAME, 0)
  {
  }

  lemma VideoOnlyIsTooFarAhead()
    ensures TooFarAhead(SILENT, VIDEO_ONLY, 0)
  {
    AllVideo(VIDEO_ONLY);
    FirstFrameIsLate();
    NoFramesNoSound(SILENT);
  }

  /** On this file the player stalls. */
  lemma VideoOnlyStalls()
    ensures Cumulative(SILENT.decodeAudio) && Cumulative(SILENT.decodeVideo) && WellNumbered(VIDEO_ONLY)
    ensures CanStall(SILENT, VIDEO_ONLY) && exists s :: StallOf(SILENT, VIDEO_ONLY, s)
  {
    FrameEachIsCumulative(LATE_FRAME);
    VideoOnlyIsTooFarAhead();
    assert VIDEO_ONLY[..|VIDEO_ONLY|] == VIDEO_ONLY;
    FileStallsExact(SILENT, VIDEO_ONLY);
  }

  // ---------------------------------------------------------------- a device that refuses

  /** One frame converted, refused by the device, and counted. */
  lemma Refuses(cfg: Config, s: State) returns (t: State)
    requires Reachable(cfg, s) && s.a.pc.Working? && s.a.pc.work.Convert? && cfg.DataSize(s.a.decoder.delivered) > 0
    ensures Reachable(cfg, t) && t.refused > s.refused
    ensures t == s.(a := s.a.(pc := Receive(s.a.pc.p)), refused := t.refused, written := t.written)
  {
    var p, f, n := s.a.pc.p, s.a.pc.f, cfg.DataSize(s.a.decoder.delivered);
    ReachableStep(cfg, s, Consumer(Audio, Quiet));
    t := RefusedAndCounted(cfg, s.(a := s.a.(pc := Working(p, f, Enqueue(n)))), n);
  }

  lemma RefusedAndCounted(cfg: Config, s: State, n: nat) returns (t: State)
    requires Reachable(cfg, s) && s.a.pc.Working? && s.a.pc.work == Enqueue(n) && n > 0
    ensures Reachable(cfg, t) && t.refused == s.refused + n
    ensures t == s.(a := s.a.(pc := Receive(s.a.pc.p)), refused := t.refused, written := t.written)
  {
    var p, f := s.a.pc.p, s.a.pc.f;
    ReachableStep(cfg, s, Consumer(Audio, Refused));
    var s1 := s.(a := s.a.(pc := Working(p, f, Account(n))), refused := s.refused + n);
    ReachableStep(cfg, s1, Consumer(Audio, Quiet));
    t := s1.(a := s.a.(pc := Receive(p)), written := s.written + n);
  }

  /** A consumer at the top of its loop takes a packet whose first frame it receives. */
  lemma FirstFrameOf(cfg: Config, s: State, k: Kind) returns (t: State)
    requires Reachable(cfg, s) && !s.quit && Cumulative(cfg.Decoding(k))
    requires s.Get(k).pc.Top? && s.Get(k).owner.Free? && |s.Get(k).queue| == 1
    requires s.Get(k).decoder == Decoder([], [], [], 0, false)
    requires cfg.Decoding(k)(s.Get(k).queue) != []
    ensures Reachable(cfg, t) && t == s.Put(k, t.Get(k)) && t.Get(k).owner.Free? && t.Get(k).queue == []
    ensures t.Get(k).pc.Working? && t.Get(k).pc.work == if k.Audio? then Convert else SampleQueue
    ensures t.Get(k).decoder.delivered == [cfg.Decoding(k)(s.Get(k).queue)[0]]
  {
    var p := s.Get(k).queue[0];
    assert s.Get(k).queue == [p] == [] + [p];
    Takes(cfg, s, k);
    var s1 := s.Put(k, Taken(s.Get(k)));
    Feeds(cfg, s1, k, p);
    var s2 := s1.Put(k, Fed(cfg.Decoding(k), s1.Get(k), p));
    Receives(cfg, s2, k);
    t := s2.Put(k, Received(k, s2.Get(k)));
  }

  const FIRST_AUDIO: Packet := Packet(0, Some(Audio))
  const THEN_VIDEO: Packet := Packet(1, Some(Video))

  lemma FirstSoundIsRefused(cfg: Config) returns (s: State)
    requires Cumulative(cfg.decodeAudio) && cfg.decodeAudio([FIRST_AUDIO]) != []
    requires cfg.DataSize([cfg.decodeAudio([FIRST_AUDIO])[0]]) > 0
    ensures Reachable(cfg, s) && s.refused > 0 && s.a.pc.Receive? && s.a.queue == [] && s.a.owner.Free?
    ensures s == Init(0).(a := s.a, demuxed := [FIRST_AUDIO], refused := s.refused, written := s.written)
  {
    StartAtRest(cfg, []);
    Reads(cfg, Init(0), Some(Audio));
    s := Read(Init(0), Some(Audio));
    assert s.Get(Audio).queue == [FIRST_AUDIO];
    s := FirstFrameOf(cfg, s, Audio);
    s := Refuses(cfg, s);
  }

  /** The first sound of a file is refused, and then the first picture reads the clock. */
  lemma SoundIsRefused(cfg: Config) returns (s: State)
    requires Cumulative(cfg.decodeAudio) && Cumulative(cfg.decodeVideo)
    requires cfg.decodeAudio([FIRST_AUDIO]) != [] && cfg.decodeVideo([THEN_VIDEO]) != []
    requires cfg.DataSize([cfg.decodeAudio([FIRST_AUDIO])[0]]) > 0
    ensures Reachable(cfg, s) && s.v.pc.Working? && s.v.pc.work.SampleQueue? && !s.a.pc.Working?
    ensures s.played == 0 && s.queued == 0 && s.refused > 0
  {
    s := FirstSoundIsRefused(cfg);
    Reads(cfg, s, Some(Video));
    s := Read(s, Some(Video));
    assert s.Get(Video).queue == [THEN_VIDEO];
    s := FirstFrameOf(cfg, s, Video);
  }

  /** The clock then says that bytes have been played of which the device has not played one. */
  lemma ClockRunsAhead(cfg: Config) returns (s: State)
    requires Cumulative(cfg.decodeAudio) && Cumulative(cfg.decodeVideo)
    requires cfg.decodeAudio([FIRST_AUDIO]) != [] && cfg.decodeVideo([THEN_VIDEO]) != []
    requires cfg.DataSize([cfg.decodeAudio([FIRST_AUDIO])[0]]) > 0
    ensures Reachable(cfg, s) && s.v.pc.Working? && s.v.pc.work.Compare?
    ensures s.v.pc.work.clock == s.played + s.refused > s.played == 0
  {
    var t := SoundIsRefused(cfg);
    AllIsCounted(cfg, t);
    ClockIsRead(cfg, t, Sample(t.queued, t.Offered(), InFlight(t.a)));
    var read := Compare(t.written - t.queued, Sample(t.queued, t.Offered(), InFlight(t.a)), t.Offered());
    s := t.(v := t.v.(pc := Working(t.v.pc.p, t.v.pc.f, read)));
  }

  lemma AllIsCounted(cfg: Config, s: State)
    requires Reachable(cfg, s) && !s.a.pc.Working?
    ensures s.written == s.played + s.queued + s.refused
  {
    ReachableInv(cfg, s);
    assert ClockInv(cfg, s);
  }

  /** A player for which this happens: one frame per packet, four samples per frame. */
  const LOUD: Config := Config(2, 44100, 1, 1000, ps => FrameEach(ps, LATE_FRAME), ps => FrameEach(ps, LATE_FRAME), frames => 4)

  lemma LoudRunsAhead() returns (s: State)
    ensures Reachable(LOUD, s) && s.v.pc.Working? && s.v.pc.work.Compare?
    ensures s.v.pc.work.clock == s.played + s.refused > s.played
  {
    FrameEachIsCumulative(LATE_FRAME);
    assert LOUD.DataSize([LATE_FRAME]) == 16;
    s := ClockRunsAhead(LOUD);
  }
}
