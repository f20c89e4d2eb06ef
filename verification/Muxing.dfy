/**
 * The timestamps that the muxer is finally handed (app/src/recorder.c): each packet of the
 * log of Recording is rescaled to the time base of its stream, then repaired.
 */
module Muxing {
  import opened Common
  import opened PtsRepair
  import opened Recording

  datatype Stamp = Stamp(video: bool, pts: int)

  /** `last_pts` of each stream, and what was written. */
  datatype Muxer = Muxer(lastVideo: int, lastAudio: int, out: seq<Stamp>)

  /** sc_recorder_write_stream(), on a packet of a stream whose rescaled timestamp is given. */
  function WriteStep(m: Muxer, video: bool, rescaled: int): Muxer {
    var pts := RepairStep(if video then m.lastVideo else m.lastAudio, rescaled);
    Muxer(if video then pts else m.lastVideo, if video then m.lastAudio else pts, m.out + [Stamp(video, pts)])
  }

  /** av_packet_rescale_ts() for each stream is arbitrary. */
  function Mux(log: seq<Written>, rescale: (bool, int) -> int): Muxer {
    if log == [] then Muxer(NOPTS, NOPTS, [])
    else
      var w := Last(log);
      WriteStep(Mux(DropLast(log), rescale), w.video, rescale(w.video, w.packet.pts))
  }

  function TimesOf(out: seq<Stamp>, video: bool): seq<int> {
    if out == [] then []
    else TimesOf(DropLast(out), video) + (if Last(out).video == video then [Last(out).pts] else [])
  }

  function Rescaled(ps: seq<Packet>, video: bool, rescale: (bool, int) -> int): (r: seq<int>)
    ensures |r| == |ps|
  {
    seq(|ps|, i requires 0 <= i < |ps| => rescale(video, ps[i].pts))
  }

  lemma RescaledSnoc(ps: seq<Packet>, p: Packet, video: bool, rescale: (bool, int) -> int)
    ensures Rescaled(ps + [p], video, rescale) == Rescaled(ps, video, rescale) + [rescale(video, p.pts)]
  {
  }

  lemma RepairSnoc(ins: seq<int>, x: int)
    ensures Repair(ins + [x]) == Repair(ins) + [RepairStep(if ins == [] then NOPTS else Last(Repair(ins)), x)]
  {
    assert DropLast(ins + [x]) == ins;
  }

  lemma TimesOfSnoc(out: seq<Stamp>, x: Stamp, video: bool)
    ensures TimesOf(out + [x], video) == TimesOf(out, video) + (if x.video == video then [x.pts] else [])
  {
    assert DropLast(out + [x]) == out;
  }

  /** What the muxer did with a stream whose rescaled times are ins. */
  ghost predicate HasRepaired(m: Muxer, video: bool, ins: seq<int>) {
    && TimesOf(m.out, video) == Repair(ins)
    && (if video then m.lastVideo else m.lastAudio) == (if ins == [] then NOPTS else Last(Repair(ins)))
  }

  lemma WriteKeeps(m: Muxer, video: bool, ins: seq<int>, of: bool, rescaled: int)
    requires HasRepaired(m, video, ins)
    ensures HasRepaired(WriteStep(m, of, rescaled), video, if of == video then ins + [rescaled] else ins)
  {
    hide Repair, TimesOf;
    TimesOfSnoc(m.out, Last(WriteStep(m, of, rescaled).out), video);
    RepairSnoc(ins, rescaled);
  }

  /** The two streams are repaired independently, each as a whole. */
  lemma {:induction false} MuxRepairs(log: seq<Written>, rescale: (bool, int) -> int, video: bool)
    ensures HasRepaired(Mux(log, rescale), video, Rescaled(StreamOf(log, video), video, rescale))
  {
    if log == [] {
      assert Rescaled(StreamOf([], video), video, rescale) == [];
    } else {
      hide HasRepaired, WriteStep, Rescaled, StreamOf;
      var before, w := DropLast(log), Last(log);
      MuxRepairs(before, rescale, video);
      StreamOfAppend(before, w);
      assert log == before + [w];
      RescaledSnoc(StreamOf(before, video), w.packet, video, rescale);
      WriteKeeps(Mux(before, rescale), video, Rescaled(StreamOf(before, video), video, rescale), w.video,
                 rescale(w.video, w.packet.pts));
    }
  }

  /**
   * A run that ends without error writes, for each stream, the repaired sequence of the rescaled
   * times, relative to the origin, of all the accepted packets but the configuration packets.
   */
  lemma {:induction false} RecordedTimes(hasVideo: bool, hasAudio: bool, actions: seq<Action>,
                                         rescale: (bool, int) -> int, video: bool)
    requires Over(Run(hasVideo, hasAudio, actions).thread)
    ensures var s := Run(hasVideo, hasAudio, actions);
            var accepted := NonConfig(if video then s.v.accepted else s.a.accepted);
            TimesOf(Mux(s.log, rescale).out, video) == Repair(Shifts(accepted, s.origin, video, rescale))
  {
    hide Run, StreamOf, NonConfig, Repair, TimesOf, Mux;
    var s := Run(hasVideo, hasAudio, actions);
    RecordsEverything(hasVideo, hasAudio, actions);
    MuxRepairs(s.log, rescale, video);
    var accepted := NonConfig(if video then s.v.accepted else s.a.accepted);
    assert Rescaled(if video then VideoOut(accepted, s.origin) else AudioOut(accepted, s.origin), video, rescale)
        == Shifts(accepted, s.origin, video, rescale);
  }

  function Shifts(ps: seq<Packet>, origin: int, video: bool, rescale: (bool, int) -> int): (r: seq<int>)
    ensures |r| == |ps|
  {
    seq(|ps|, i requires 0 <= i < |ps| => rescale(video, ps[i].pts - origin))
  }

  /** So the written times strictly increase, in each stream, unless its two first rescaled times are sentinels. */
  lemma RecordedTimesIncreaseIff(hasVideo: bool, hasAudio: bool, actions: seq<Action>,
                                 rescale: (bool, int) -> int, video: bool)
    requires Over(Run(hasVideo, hasAudio, actions).thread)
    requires forall t :: rescale(video, t) >= NOPTS
    ensures var s := Run(hasVideo, hasAudio, actions);
            var accepted := NonConfig(if video then s.v.accepted else s.a.accepted);
            StrictlyIncreasing(TimesOf(Mux(s.log, rescale).out, video))
            <==> !StartsWithTwoSentinels(Shifts(accepted, s.origin, video, rescale))
  {
    hide Run, NonConfig, Repair, TimesOf, Mux;
    RecordedTimes(hasVideo, hasAudio, actions, rescale, video);
    var s := Run(hasVideo, hasAudio, actions);
    IncreasesIff(Shifts(NonConfig(if video then s.v.accepted else s.a.accepted), s.origin, video, rescale));
  }

  /** The two streams of a recorder, and what they write. */
  class Streams {
    const videoStream: RecorderStream
    const audioStream: RecorderStream
    var out: seq<Stamp>

    ghost function View(): Muxer
      reads this, videoStream, audioStream
    {
      Muxer(videoStream.lastPts, audioStream.lastPts, out)
    }

    constructor ()
      ensures View() == Muxer(NOPTS, NOPTS, []) && videoStream != audioStream
      ensures fresh(videoStream) && fresh(audioStream)
    {
      videoStream := new RecorderStream();
      audioStream := new RecorderStream();
      out := [];
    }

    method WriteStream(video: bool, rescaled: int)
      requires videoStream != audioStream
      modifies this, videoStream, audioStream
      ensures View() == WriteStep(old(View()), video, rescaled)
    {
      var pts;
      if video {
        pts := videoStream.NextPts(rescaled);
      } else {
        pts := audioStream.NextPts(rescaled);
      }
      out := out + [Stamp(video, pts)];
    }
  }

  /** Writing a log on the two streams computes Mux. */
  method WriteLog(log: seq<Written>, rescale: (bool, int) -> int) returns (streams: Streams)
    ensures fresh(streams) && streams.View() == Mux(log, rescale)
  {
    streams := new Streams();
    for i := 0 to |log|
      invariant streams.View() == Mux(log[..i], rescale)
      invariant fresh(streams) && fresh(streams.videoStream) && fresh(streams.audioStream)
      invariant streams.videoStream != streams.audioStream
    {
      streams.WriteStream(log[i].video, rescale(log[i].video, log[i].packet.pts));
      assert DropLast(log[..i + 1]) == log[..i];
    }
    assert log[..|log|] == log;
  }
}
