/**
  Which files can stall the player. At a stall the clock stands at the sound of all
  audio read so far and the frame held belongs to the video packet with exactly 200
  behind it; so whether a stall is possible can be read off the file, and every file
  that has such a place does stall under some schedule.
  */
module PlayerFile {
  import opened Options
  import opened PlayerModel
  import opened PlayerInvariant
  import opened PlayerSafety
  import opened PlayerStall
  import opened PlayerProgress

  // ---------------------------------------------------------------- the condition on the file

  function AudioOf(ps: seq<Packet>): seq<Packet> {
    Of(ps, Some(Audio))
  }

  function VideoOf(ps: seq<Packet>): seq<Packet> {
    Of(ps, Some(Video))
  }

  /** The bytes of sound in some packets. */
  function SoundOf(cfg: Config, ps: seq<Packet>): nat {
    cfg.Sound(cfg.decodeAudio(AudioOf(ps)))
  }

  /** Frame number j of the stream comes out of its packet number i. */
  predicate FrameOfPacket(decode: Decode, ps: seq<Packet>, i: nat, j: nat) {
    i < |ps| && |decode(ps[..i])| <= j < |decode(ps[..i + 1])|
  }

  /** Of the video packet with exactly 200 behind it, frame j is beyond the sound of all audio plus the tolerance. */
  predicate TooFarAhead(cfg: Config, ps: seq<Packet>, j: nat) {
    var video := VideoOf(ps);
    var i := |video| - 201;
    && i >= 0
    && FrameOfPacket(cfg.decodeVideo, video, i, j)
    && cfg.Ahead(cfg.decodeVideo(video[..i + 1])[j], SoundOf(cfg, ps))
  }

  /** Some part of the file from its beginning ends at such a place. */
  ghost predicate CanStall(cfg: Config, file: seq<Packet>) {
    exists n: nat, j: nat :: n <= |file| && TooFarAhead(cfg, file[..n], j)
  }

  ghost predicate ErrorFree(s: State) {
    !s.a.decoder.failed && !s.v.decoder.failed
  }

  /** What the demuxer gives next, the file being this. */
  function NextOf(file: seq<Packet>, s: State): Choice {
    if |s.demuxed| < |file| then Demuxed(file[|s.demuxed|].kind) else Eof
  }

  // ---------------------------------------------------------------- every stall is at such a place

  lemma SoundAtRest(cfg: Config, s: State)
    requires Reachable(cfg, s) && !s.a.decoder.failed && Waiting(s.a) && s.a.queue == []
    requires ReaderHand(s.reader, Some(Audio)) == []
    ensures s.written == SoundOf(cfg, s.demuxed)
  {
    ReachableInv(cfg, s);
    ReachableLane(cfg, s, Audio);
    var d := s.Get(Audio).decoder;
    assert d.accepted == s.Get(Audio).popped;
    assert d.accepted == AudioOf(s.demuxed) && d.delivered == cfg.decodeAudio(d.accepted);
  }

  lemma FrameInHand(cfg: Config, s: State)
    requires Reachable(cfg, s) && !s.v.decoder.failed && ClockLoop(s.v)
    ensures
      var all, j := cfg.decodeVideo(s.v.popped), |s.v.decoder.delivered| - 1;
      s.v.popped != [] && |cfg.decodeVideo(Before(s.v.popped))| <= j < |all| && all[j] == s.v.pc.f
  {
    ReachableLane(cfg, s, Video);
    var l := s.Get(Video);
    assert l.decoder.accepted == l.popped;
    assert l.decoder.delivered[|l.decoder.delivered| - 1] == (l.decoder.delivered + l.decoder.pending)[|l.decoder.delivered| - 1];
  }

  /** At a stall without decoder errors the part of the file read so far ends at a place where the condition holds. */
  lemma StallPlace(cfg: Config, s: State)
    requires Reachable(cfg, s) && Stalled(cfg, s) && ErrorFree(s)
    ensures s.written == SoundOf(cfg, s.demuxed)
    ensures |VideoOf(s.demuxed)| > 200 && s.v.pc.p == VideoOf(s.demuxed)[|VideoOf(s.demuxed)| - 201]
    ensures exists j: nat :: TooFarAhead(cfg, s.demuxed, j)
  {
    StallShape(cfg, s);
    StallInterleaving(cfg, s);
    StallHands(s);
    SoundAtRest(cfg, s);
    FrameInHand(cfg, s);
    PoppedAndQueue(cfg, s, Video);
    var video, n := VideoOf(s.demuxed), |s.v.popped|;
    assert s.Get(Video) == s.v;
    assert video[..n] == s.v.popped && video[..n - 1] == Before(s.v.popped);
    assert TooFarAhead(cfg, s.demuxed, |s.v.decoder.delivered| - 1);
  }

  lemma PoppedAndQueue(cfg: Config, s: State, k: Kind)
    requires Reachable(cfg, s) && ReaderHand(s.reader, Some(k)) == []
    ensures s.Get(k).popped + s.Get(k).queue == Of(s.demuxed, Some(k))
  {
    ReachableLane(cfg, s, k);
  }

  lemma StalledCanStall(cfg: Config, file: seq<Packet>, s: State)
    requires Reachable(cfg, s) && Stalled(cfg, s) && ErrorFree(s) && s.demuxed <= file
    ensures CanStall(cfg, file)
  {
    StallPlace(cfg, s);
    var j: nat :| TooFarAhead(cfg, s.demuxed, j);
    assert file[..|s.demuxed|] == s.demuxed;
  }

  /** A file without such a place never stalls: from every state before quit, progress is possible with what it has next. */
  lemma NeverStalls(cfg: Config, file: seq<Packet>, s: State)
    requires !CanStall(cfg, file)
    requires Reachable(cfg, s) && !s.quit && ErrorFree(s) && s.demuxed <= file
    ensures !Stalled(cfg, s) && CanProgress(cfg, s, NextOf(file, s))
  {
    if Stalled(cfg, s) {
      StalledCanStall(cfg, file, s);
    }
    StallExact(cfg, s, NextOf(file, s));
  }

  /** On a fair schedule such a file plays on until quit is stored. */
  lemma PlaysOn(cfg: Config, file: seq<Packet>, ss: nat -> State, acts: nat -> Action, i: nat)
    requires !CanStall(cfg, file) && FairPlay(cfg, ss, acts)
    requires ErrorFree(ss(i)) && ss(i).demuxed <= file
    ensures ProgressAfter(cfg, ss, acts, i) || QuitAfter(ss, i)
  {
    BehaviourReachable(cfg, ss, acts, i);
    if Stalled(cfg, ss(i)) {
      StalledCanStall(cfg, file, ss(i));
    }
    FairProgress(cfg, ss, acts, i);
  }
}
