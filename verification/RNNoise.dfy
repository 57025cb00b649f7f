/** The noise suppressor: arbitrary chunks are re-blocked into frames, denoised, mixed and gated by voice activity. */
module RNNoise {
  import opened Blocks
  import opened Numbers
  import opened Wrappers

  datatype Config = Config(blocksize: nat, enableVad: bool, threshold: real, wet: real, release: nat)

  /** What a channel keeps besides its buffer: the hangover counter, the last probability, the network state. */
  datatype Core<S> = Core(grace: int, prob: real, state: Option<S>)

  /** rnnoise_process_frame: from a state and a frame to the next state, the denoised frame and a probability. */
  type Denoiser<!S> = (S, seq<real>) -> (S, seq<real>, real)

  ghost predicate KeepsLength<S(!new)>(rn: Denoiser<S>) {
    forall s: S, frame: seq<real> :: |rn(s, frame).1| == |frame|
  }

  const SHORT_SCALE := 32768.0

  function Scaled(frame: seq<real>): (r: seq<real>)
    ensures |r| == |frame|
  {
    seq(|frame|, i requires 0 <= i < |frame| => frame[i] * SHORT_SCALE)
  }

  function Zeros(n: nat): (r: seq<real>)
    ensures |r| == n
  {
    seq(n, _ => 0.0)
  }

  function MixSample(wet: real, d: real, y: real): real {
    (d * wet + y * (1.0 - wet)) * (1.0 / SHORT_SCALE)
  }

  /** The wet/dry mix, scaled back to unit range. */
  function Mixed(wet: real, denoised: seq<real>, dry: seq<real>): (r: seq<real>)
    requires |denoised| == |dry|
    ensures |r| == |dry|
  {
    seq(|dry|, i requires 0 <= i < |dry| => MixSample(wet, denoised[i], dry[i]))
  }

  // ----- the hangover counter -----

  /** The counter when the gate looks at it: a voiced frame reloads it. */
  function Reload(cfg: Config, grace: int, prob: real): int {
    if prob >= cfg.threshold then cfg.release else grace
  }

  function Spend(grace: int): int {
    if grace >= 0 then grace - 1 else grace
  }

  // ----- one frame -----

  predicate Passes<S>(cfg: Config, core: Core<S>, prob: real) {
    !cfg.enableVad || Reload(cfg, core.grace, prob) >= 0
  }

  function FrameOut<S(!new)>(cfg: Config, rn: Denoiser<S>, core: Core<S>, frame: seq<real>): (out: seq<real>)
    requires KeepsLength(rn)
    ensures |out| == |frame|
  {
    if core.state.None? then frame
    else
      var (_, denoised, prob) := rn(core.state.value, Scaled(frame));
      if Passes(cfg, core, prob) then Mixed(cfg.wet, denoised, Scaled(frame)) else Zeros(|frame|)
  }

  function NextCore<S>(cfg: Config, rn: Denoiser<S>, core: Core<S>, frame: seq<real>): Core<S> {
    if core.state.None? then core
    else
      var (state, _, prob) := rn(core.state.value, Scaled(frame));
      Core(if cfg.enableVad then Spend(Reload(cfg, core.grace, prob)) else core.grace, prob, Some(state))
  }

  // ----- a whole stream, frame by frame -----

  function After<S>(cfg: Config, rn: Denoiser<S>, core: Core<S>, fs: seq<seq<real>>): Core<S> {
    if fs == [] then core else NextCore(cfg, rn, After(cfg, rn, core, fs[..|fs| - 1]), fs[|fs| - 1])
  }

  function Outs<S(!new)>(cfg: Config, rn: Denoiser<S>, core: Core<S>, fs: seq<seq<real>>): (os: seq<seq<real>>)
    requires KeepsLength(rn)
    ensures |os| == |fs|
  {
    if fs == [] then []
    else
      var before := fs[..|fs| - 1];
      Outs(cfg, rn, core, before) + [FrameOut(cfg, rn, After(cfg, rn, core, before), fs[|fs| - 1])]
  }

  lemma {:induction false} RunResumes<S(!new)>(cfg: Config, rn: Denoiser<S>, core: Core<S>,
                                              fs: seq<seq<real>>, gs: seq<seq<real>>)
    requires KeepsLength(rn)
    ensures After(cfg, rn, core, fs + gs) == After(cfg, rn, After(cfg, rn, core, fs), gs)
    ensures Outs(cfg, rn, core, fs + gs) == Outs(cfg, rn, core, fs) + Outs(cfg, rn, After(cfg, rn, core, fs), gs)
  {
    if gs == [] {
      assert fs + gs == fs;
    } else {
      RunResumes(cfg, rn, core, fs, gs[..|gs| - 1]);
      assert (fs + gs)[..|fs + gs| - 1] == fs + gs[..|gs| - 1];
    }
  }

  /** What one channel emits and becomes when it has received the whole stream s. */
  function Emitted<S(!new)>(cfg: Config, rn: Denoiser<S>, core: Core<S>, s: seq<real>): seq<real>
    requires cfg.blocksize > 0 && KeepsLength(rn)
  {
    Flatten(Outs(cfg, rn, core, Frames(s, cfg.blocksize)))
  }

  function Settled<S>(cfg: Config, rn: Denoiser<S>, core: Core<S>, s: seq<real>): Core<S>
    requires cfg.blocksize > 0
  {
    After(cfg, rn, core, Frames(s, cfg.blocksize))
  }

  /** Feeding s and then t is feeding s + t. */
  lemma EmittedResumes<S(!new)>(cfg: Config, rn: Denoiser<S>, core: Core<S>, s: seq<real>, t: seq<real>)
    requires cfg.blocksize > 0 && KeepsLength(rn)
    ensures var u := Rest(s, cfg.blocksize) + t;
            Emitted(cfg, rn, core, s + t)
              == Emitted(cfg, rn, core, s) + Emitted(cfg, rn, Settled(cfg, rn, core, s), u)
            && Settled(cfg, rn, core, s + t) == Settled(cfg, rn, Settled(cfg, rn, core, s), u)
  {
    var b := cfg.blocksize;
    FramesResume(s, t, b);
    RunResumes(cfg, rn, core, Frames(s, b), Frames(Rest(s, b) + t, b));
    FlattenAppend(Outs(cfg, rn, core, Frames(s, b)),
                  Outs(cfg, rn, Settled(cfg, rn, core, s), Frames(Rest(s, b) + t, b)));
  }

  lemma {:induction false} OutLengths<S(!new)>(cfg: Config, rn: Denoiser<S>, core: Core<S>, fs: seq<seq<real>>)
    requires KeepsLength(rn)
    ensures forall i :: 0 <= i < |fs| ==> |Outs(cfg, rn, core, fs)[i]| == |fs[i]|
  {
    if fs != [] { OutLengths(cfg, rn, core, fs[..|fs| - 1]); }
  }

  /** Samples emitted plus samples buffered are samples received. */
  lemma Conservation<S(!new)>(cfg: Config, rn: Denoiser<S>, core: Core<S>, s: seq<real>)
    requires cfg.blocksize > 0 && KeepsLength(rn)
    ensures |Emitted(cfg, rn, core, s)| + |Rest(s, cfg.blocksize)| == |s|
  {
    var fs := Frames(s, cfg.blocksize);
    FramesConserve(s, cfg.blocksize);
    OutLengths(cfg, rn, core, fs);
    FlattenLength(fs, Outs(cfg, rn, core, fs));
    assert |Flatten(fs) + Rest(s, cfg.blocksize)| == |s|;
  }

  // ----- voice activity over a whole run -----

  /** The probability the network reports for frame k of a run. */
  function ProbAt<S>(cfg: Config, rn: Denoiser<S>, core: Core<S>, fs: seq<seq<real>>, k: nat): real
    requires k < |fs|
  {
    var c := After(cfg, rn, core, fs[..k]);
    if c.state.None? then 0.0 else rn(c.state.value, Scaled(fs[k])).2
  }

  ghost predicate Voiced<S>(cfg: Config, rn: Denoiser<S>, core: Core<S>, fs: seq<seq<real>>, j: int) {
    0 <= j < |fs| && ProbAt(cfg, rn, core, fs, j) >= cfg.threshold
  }

  /** Frame k is open: a frame at most `release` back was voiced, or none was and the initial grace still covers k. */
  ghost predicate Open<S>(cfg: Config, rn: Denoiser<S>, core: Core<S>, fs: seq<seq<real>>, k: nat) {
    || (exists j :: k - cfg.release <= j <= k && Voiced(cfg, rn, core, fs, j))
    || ((forall j :: 0 <= j <= k ==> !Voiced(cfg, rn, core, fs, j)) && k <= core.grace)
  }

  lemma {:induction false} StateStays<S>(cfg: Config, rn: Denoiser<S>, core: Core<S>, fs: seq<seq<real>>)
    requires core.state.Some?
    ensures After(cfg, rn, core, fs).state.Some?
  {
    if fs != [] { StateStays(cfg, rn, core, fs[..|fs| - 1]); }
  }

  lemma AfterOne<S>(cfg: Config, rn: Denoiser<S>, core: Core<S>, fs: seq<seq<real>>, k: nat)
    requires core.state.Some? && cfg.enableVad && k < |fs|
    ensures After(cfg, rn, core, fs[..k + 1]).grace
         == Spend(Reload(cfg, After(cfg, rn, core, fs[..k]).grace, ProbAt(cfg, rn, core, fs, k)))
  {
    StateStays(cfg, rn, core, fs[..k]);
    assert fs[..k + 1][..k] == fs[..k];
  }

  /** What the counter holds before frame k: the time since the last voiced frame, or since the start. */
  ghost predicate Counts<S>(cfg: Config, rn: Denoiser<S>, core: Core<S>, fs: seq<seq<real>>, k: nat, grace: int) {
    || ((forall j :: 0 <= j < k ==> !Voiced(cfg, rn, core, fs, j)) && grace == Countdown(core.grace, k))
    || (exists j :: 0 <= j < k && Since(cfg, rn, core, fs, j, k, grace))
  }

  /** The last voiced frame before k was j, and the counter has been running down since. */
  ghost predicate Since<S>(cfg: Config, rn: Denoiser<S>, core: Core<S>, fs: seq<seq<real>>, j: int, k: nat, grace: int) {
    LastVoiced(cfg, rn, core, fs, j, k) && grace == Countdown(cfg.release, k - j)
  }

  ghost predicate LastVoiced<S>(cfg: Config, rn: Denoiser<S>, core: Core<S>, fs: seq<seq<real>>, j: int, k: nat) {
    Voiced(cfg, rn, core, fs, j) && forall i :: j < i < k ==> !Voiced(cfg, rn, core, fs, i)
  }

  /** A counter left alone for n frames stops at -1, unless it started below. */
  function Countdown(g: int, n: int): int {
    if g < -1 then g else if g - n < -1 then -1 else g - n
  }

  lemma {:induction false} CounterCounts<S>(cfg: Config, rn: Denoiser<S>, core: Core<S>, fs: seq<seq<real>>, k: nat)
    requires core.state.Some? && cfg.enableVad && k <= |fs|
    ensures Counts(cfg, rn, core, fs, k, After(cfg, rn, core, fs[..k]).grace)
  {
    hide Voiced, After;
    if k == 0 {
      assert fs[..0] == [];
      AfterNone(cfg, rn, core);
    } else {
      CounterCounts(cfg, rn, core, fs, k - 1);
      AfterOne(cfg, rn, core, fs, k - 1);
      VoicedIs(cfg, rn, core, fs, k - 1);
      var p: nat, g := k - 1, After(cfg, rn, core, fs[..k - 1]).grace;
      if Voiced(cfg, rn, core, fs, p) {
        assert Since(cfg, rn, core, fs, p, k, Countdown(cfg.release, 1));
      } else if j :| 0 <= j < p && Since(cfg, rn, core, fs, j, p, g) {
        assert Since(cfg, rn, core, fs, j, k, Spend(g));
      }
    }
  }

  lemma AfterNone<S>(cfg: Config, rn: Denoiser<S>, core: Core<S>)
    ensures After(cfg, rn, core, []) == core
  {
  }

  lemma VoicedIs<S>(cfg: Config, rn: Denoiser<S>, core: Core<S>, fs: seq<seq<real>>, k: nat)
    requires k < |fs|
    ensures Voiced(cfg, rn, core, fs, k) <==> ProbAt(cfg, rn, core, fs, k) >= cfg.threshold
  {
  }

  lemma NegativeIsSilent<S>(cfg: Config, rn: Denoiser<S>, core: Core<S>, fs: seq<seq<real>>)
    ensures forall j :: j < 0 ==> !Voiced(cfg, rn, core, fs, j)
  {
  }

  /** The gate passes frame k exactly when the frame is open. */
  lemma GateIsOpen<S>(cfg: Config, rn: Denoiser<S>, core: Core<S>, fs: seq<seq<real>>, k: nat)
    requires core.state.Some? && cfg.enableVad && k < |fs|
    ensures Passes(cfg, After(cfg, rn, core, fs[..k]), ProbAt(cfg, rn, core, fs, k)) <==> Open(cfg, rn, core, fs, k)
  {
    hide Voiced, After;
    CounterCounts(cfg, rn, core, fs, k);
    VoicedIs(cfg, rn, core, fs, k);
    var g := After(cfg, rn, core, fs[..k]).grace;
    if !Voiced(cfg, rn, core, fs, k) {
      if j :| 0 <= j < k && Since(cfg, rn, core, fs, j, k, g) {
        assert Voiced(cfg, rn, core, fs, j);
        assert forall i :: j < i <= k ==> !Voiced(cfg, rn, core, fs, i);
      } else {
        NegativeIsSilent(cfg, rn, core, fs);
        assert forall i :: i <= k ==> !Voiced(cfg, rn, core, fs, i);
      }
    }
  }

  lemma {:induction false} OutAt<S(!new)>(cfg: Config, rn: Denoiser<S>, core: Core<S>, fs: seq<seq<real>>, k: nat)
    requires KeepsLength(rn) && k < |fs|
    ensures Outs(cfg, rn, core, fs)[k] == FrameOut(cfg, rn, After(cfg, rn, core, fs[..k]), fs[k])
  {
    if k < |fs| - 1 {
      OutAt(cfg, rn, core, fs[..|fs| - 1], k);
      assert fs[..|fs| - 1][..k] == fs[..k];
    }
  }

  /** Over every run with voice detection on: an open frame is mixed, any other frame is silence. */
  lemma GatedRun<S(!new)>(cfg: Config, rn: Denoiser<S>, core: Core<S>, fs: seq<seq<real>>, k: nat)
    requires KeepsLength(rn) && core.state.Some? && cfg.enableVad && k < |fs|
    ensures After(cfg, rn, core, fs[..k]).state.Some?
    ensures var st := After(cfg, rn, core, fs[..k]).state.value;
            Outs(cfg, rn, core, fs)[k] == if Open(cfg, rn, core, fs, k)
                                          then Mixed(cfg.wet, rn(st, Scaled(fs[k])).1, Scaled(fs[k]))
                                          else Zeros(|fs[k]|)
  {
    hide Open, After;
    StateStays(cfg, rn, core, fs[..k]);
    OutAt(cfg, rn, core, fs, k);
    GateIsOpen(cfg, rn, core, fs, k);
  }

  /** The state of the network after it has seen the frames fs, whatever the gate did with them. */
  function NetState<S>(rn: Denoiser<S>, s: S, fs: seq<seq<real>>): S {
    if fs == [] then s else rn(NetState(rn, s, fs[..|fs| - 1]), Scaled(fs[|fs| - 1])).0
  }

  lemma {:induction false} StateIs<S>(cfg: Config, rn: Denoiser<S>, core: Core<S>, fs: seq<seq<real>>)
    requires core.state.Some?
    ensures After(cfg, rn, core, fs).state == Some(NetState(rn, core.state.value, fs))
  {
    if fs != [] { StateIs(cfg, rn, core, fs[..|fs| - 1]); }
  }

  /** The probability of frame k is what the network reports after the frames before it. */
  lemma ProbIs<S>(cfg: Config, rn: Denoiser<S>, core: Core<S>, fs: seq<seq<real>>, k: nat)
    requires core.state.Some? && k < |fs|
    ensures ProbAt(cfg, rn, core, fs, k) == rn(NetState(rn, core.state.value, fs[..k]), Scaled(fs[k])).2
  {
    StateIs(cfg, rn, core, fs[..k]);
  }

  lemma MixedAt(wet: real, denoised: seq<real>, frame: seq<real>, m: nat)
    requires m < |denoised| == |frame|
    ensures Mixed(wet, denoised, Scaled(frame))[m] == wet * denoised[m] / 32768.0 + (1.0 - wet) * frame[m]
  {
    hide MixSample;
    MixedSample(wet, denoised[m], frame[m], Scaled(frame)[m]);
  }

  lemma MixedSample(wet: real, d: real, x: real, y: real)
    requires y == x * SHORT_SCALE
    ensures MixSample(wet, d, y) == wet * d / 32768.0 + (1.0 - wet) * x
  {
    var a, b := d * wet, x * (1.0 - wet);
    assert y * (1.0 - wet) == b * SHORT_SCALE;
    assert (a + b * SHORT_SCALE) * (1.0 / SHORT_SCALE) == a / SHORT_SCALE + b;
  }

  /**
   * Every sample of every run: with voice detection off, or in an open frame, the network's output in unit range and
   * the input, in the proportion of the wet ratio; in any other frame silence.
   */
  lemma HeardSample<S(!new)>(cfg: Config, rn: Denoiser<S>, core: Core<S>, fs: seq<seq<real>>, k: nat, m: nat)
    requires KeepsLength(rn) && core.state.Some? && k < |fs| && m < |fs[k]|
    ensures |Outs(cfg, rn, core, fs)[k]| == |fs[k]|
    ensures var denoised := rn(NetState(rn, core.state.value, fs[..k]), Scaled(fs[k])).1;
            |denoised| == |fs[k]| &&
            Outs(cfg, rn, core, fs)[k][m] == if !cfg.enableVad || Open(cfg, rn, core, fs, k)
                                             then cfg.wet * denoised[m] / 32768.0 + (1.0 - cfg.wet) * fs[k][m]
                                             else 0.0
  {
    hide Open, After, Mixed, Scaled;
    StateIs(cfg, rn, core, fs[..k]);
    OutAt(cfg, rn, core, fs, k);
    MixedAt(cfg.wet, rn(NetState(rn, core.state.value, fs[..k]), Scaled(fs[k])).1, fs[k], m);
    if cfg.enableVad { GatedRun(cfg, rn, core, fs, k); }
  }

  /** Without a network state every frame passes as it is. */
  lemma {:induction false} NoState<S(!new)>(cfg: Config, rn: Denoiser<S>, core: Core<S>, fs: seq<seq<real>>)
    requires KeepsLength(rn) && core.state.None?
    ensures Outs(cfg, rn, core, fs) == fs && After(cfg, rn, core, fs) == core
  {
    if fs != [] { NoState(cfg, rn, core, fs[..|fs| - 1]); }
  }

  /** The hangover counter never falls below -1 if it does not start there. */
  lemma {:induction false} GraceBound<S>(cfg: Config, rn: Denoiser<S>, core: Core<S>, fs: seq<seq<real>>)
    ensures After(cfg, rn, core, fs).grace >= if core.grace < -1 then core.grace else -1
  {
    if fs != [] { GraceBound(cfg, rn, core, fs[..|fs| - 1]); }
  }

  /** With voice detection off and a wet ratio of zero the plugin is a pure delay: complete frames come out unchanged. */
  lemma {:induction false} DryRun<S(!new)>(cfg: Config, rn: Denoiser<S>, core: Core<S>, fs: seq<seq<real>>)
    requires KeepsLength(rn) && !cfg.enableVad && cfg.wet == 0.0
    ensures Outs(cfg, rn, core, fs) == fs
  {
    if fs != [] {
      DryRun(cfg, rn, core, fs[..|fs| - 1]);
      DryFrame(cfg, rn, After(cfg, rn, core, fs[..|fs| - 1]), fs[|fs| - 1]);
    }
  }

  lemma DryFrame<S(!new)>(cfg: Config, rn: Denoiser<S>, core: Core<S>, frame: seq<real>)
    requires KeepsLength(rn) && !cfg.enableVad && cfg.wet == 0.0
    ensures FrameOut(cfg, rn, core, frame) == frame
  {
  }

  // ----- what a different hangover would change -----

  /** The hangover can be replaced by r without a difference in any run of any network. */
  ghost predicate SameRuns(cfg: Config, r: nat) {
    forall rn: Denoiser<nat>, core: Core<nat>, fs: seq<seq<real>> :: KeepsLength(rn) ==>
      Outs(cfg, rn, core, fs) == Outs(cfg.(release := r), rn, core, fs)
  }

  /** A network that hears a voice in its first frame only, and leaves the frames as they are. */
  function VoiceOnce(threshold: real): Denoiser<nat> {
    (n: nat, frame: seq<real>) => (n + 1, frame, if n == 0 then threshold else threshold - 1.0)
  }

  lemma {:induction false} OnceState(cfg: Config, fs: seq<seq<real>>, grace: int)
    ensures After(cfg, VoiceOnce(cfg.threshold), Core(grace, 0.0, Some(0)), fs).state == Some(|fs|)
  {
    if fs != [] { OnceState(cfg, fs[..|fs| - 1], grace); }
  }

  lemma OnceVoiced(cfg: Config, fs: seq<seq<real>>, grace: int, j: int)
    ensures Voiced(cfg, VoiceOnce(cfg.threshold), Core(grace, 0.0, Some(0)), fs, j) <==> j == 0 && |fs| > 0
  {
    if 0 <= j < |fs| { OnceState(cfg, fs[..j], grace); }
  }

  /** Its voice keeps the gate open for exactly the hangover. */
  lemma OnceOpen(cfg: Config, fs: seq<seq<real>>, grace: int, k: nat)
    requires k < |fs|
    ensures Open(cfg, VoiceOnce(cfg.threshold), Core(grace, 0.0, Some(0)), fs, k) <==> k <= cfg.release
  {
    var rn, core := VoiceOnce(cfg.threshold), Core(grace, 0.0, Some(0));
    forall j: int ensures Voiced(cfg, rn, core, fs, j) <==> j == 0 { OnceVoiced(cfg, fs, grace, j); }
    hide Voiced;
    assert Voiced(cfg, rn, core, fs, 0);
  }

  lemma MixedWithItself(wet: real, x: real)
    ensures MixSample(wet, x * SHORT_SCALE, x * SHORT_SCALE) == x
  {
    var y := x * SHORT_SCALE;
    assert y * wet + y * (1.0 - wet) == y;
  }

  /** What comes out of frame k of a run of that network on ones. */
  lemma OnceOut(cfg: Config, fs: seq<seq<real>>, k: nat)
    requires cfg.enableVad && k < |fs| && fs[k] == [1.0]
    ensures Outs(cfg, VoiceOnce(cfg.threshold), Core(-1, 0.0, Some(0)), fs)[k] == if k <= cfg.release then [1.0] else [0.0]
  {
    var rn, core := VoiceOnce(cfg.threshold), Core(-1, 0.0, Some(0));
    GatedRun(cfg, rn, core, fs, k);
    OnceOpen(cfg, fs, -1, k);
    hide Open, Outs, After, Mixed, Scaled;
    MixedOne(cfg.wet);
    assert Zeros(1) == [0.0];
  }

  lemma MixedOne(wet: real)
    ensures Mixed(wet, Scaled([1.0]), Scaled([1.0])) == [1.0]
  {
    MixedWithItself(wet, 1.0);
  }

  lemma {:induction false} HangoverUnused<S(!new)>(cfg: Config, r: nat, rn: Denoiser<S>, core: Core<S>, fs: seq<seq<real>>)
    requires KeepsLength(rn) && !cfg.enableVad
    ensures After(cfg, rn, core, fs) == After(cfg.(release := r), rn, core, fs)
    ensures Outs(cfg, rn, core, fs) == Outs(cfg.(release := r), rn, core, fs)
  {
    if fs != [] { HangoverUnused(cfg, r, rn, core, fs[..|fs| - 1]); }
  }

  /** A hangover is honoured exactly when it is the one in use, or voice detection is off. */
  lemma HangoverExact(cfg: Config, r: nat)
    ensures SameRuns(cfg, r) <==> r == cfg.release || !cfg.enableVad
  {
    if !cfg.enableVad {
      forall rn: Denoiser<nat>, core: Core<nat>, fs: seq<seq<real>> | KeepsLength(rn)
        ensures Outs(cfg, rn, core, fs) == Outs(cfg.(release := r), rn, core, fs)
      {
        HangoverUnused(cfg, r, rn, core, fs);
      }
    } else if r == cfg.release {
      assert cfg.(release := r) == cfg;
    } else {
      var k := Max(r, cfg.release);
      var fs := seq(k + 1, _ => [1.0]);
      var rn, core := VoiceOnce(cfg.threshold), Core(-1, 0.0, Some(0));
      OnceOut(cfg, fs, k);
      OnceOut(cfg.(release := r), fs, k);
      assert KeepsLength(rn);
      assert Outs(cfg, rn, core, fs)[k] != Outs(cfg.(release := r), rn, core, fs)[k];
    }
  }

  /** The release setting is in milliseconds, and frames are of 10 milliseconds. */
  function ReleaseFrames(milliseconds: real): (n: int)
    ensures -5.0 <= 10.0 * n as real - milliseconds <= 5.0
  {
    Round(milliseconds / 10.0)
  }

  /**
   * The hangover in use is always RELEASE: a release setting is honoured exactly when it rounds to that many frames, or
   * voice detection is off.
   */
  lemma ReleaseHonoured(cfg: Config, milliseconds: real)
    requires cfg.release == RELEASE && milliseconds >= 0.0
    ensures ReleaseFrames(milliseconds) >= 0
    ensures SameRuns(cfg, ReleaseFrames(milliseconds)) <==> ReleaseFrames(milliseconds) == RELEASE || !cfg.enableVad
  {
    hide SameRuns;
    assert (milliseconds / 10.0).Floor >= 0;
    HangoverExact(cfg, ReleaseFrames(milliseconds));
  }

  // ----- a run of calls -----

  /** A channel between calls, and what it has put out. */
  datatype Trace<S> = Trace(data: seq<real>, core: Core<S>, out: seq<real>)

  function Feed<S(!new)>(cfg: Config, rn: Denoiser<S>, t: Trace<S>, chunk: seq<real>): Trace<S>
    requires cfg.blocksize > 0 && KeepsLength(rn)
  {
    Trace(Rest(t.data + chunk, cfg.blocksize), Settled(cfg, rn, t.core, t.data + chunk),
          t.out + Emitted(cfg, rn, t.core, t.data + chunk))
  }

  function FeedAll<S(!new)>(cfg: Config, rn: Denoiser<S>, t: Trace<S>, chunks: seq<seq<real>>): Trace<S>
    requires cfg.blocksize > 0 && KeepsLength(rn)
  {
    if chunks == [] then t else Feed(cfg, rn, FeedAll(cfg, rn, t, chunks[..|chunks| - 1]), chunks[|chunks| - 1])
  }

  /** Any sequence of calls leaves a channel, from wherever it stands, as one call with all of its input would. */
  lemma {:induction false} ChunksDoNotMatter<S(!new)>(cfg: Config, rn: Denoiser<S>, t: Trace<S>, chunks: seq<seq<real>>)
    requires cfg.blocksize > 0 && KeepsLength(rn) && |t.data| < cfg.blocksize
    ensures FeedAll(cfg, rn, t, chunks) == Feed(cfg, rn, t, Flatten(chunks))
  {
    if chunks == [] {
      assert t.data + [] == t.data;
      assert Frames(t.data, cfg.blocksize) == [];
    } else {
      var s, c := Flatten(chunks[..|chunks| - 1]), chunks[|chunks| - 1];
      ChunksDoNotMatter(cfg, rn, t, chunks[..|chunks| - 1]);
      FeedResumes(cfg, rn, t, s, c);
    }
  }

  lemma FeedResumes<S(!new)>(cfg: Config, rn: Denoiser<S>, t: Trace<S>, s: seq<real>, c: seq<real>)
    requires cfg.blocksize > 0 && KeepsLength(rn)
    ensures Feed(cfg, rn, Feed(cfg, rn, t, s), c) == Feed(cfg, rn, t, s + c)
  {
    hide Emitted, Settled, Rest;
    assert t.data + (s + c) == (t.data + s) + c;
    EmittedResumes(cfg, rn, t.core, t.data + s, c);
    FramesResume(t.data + s, c, cfg.blocksize);
  }

  // ----- a run of calls under changing settings -----

  /** One call: the settings in force and the input. */
  datatype Call = Call(cfg: Config, chunk: seq<real>)

  ghost predicate ValidCalls(calls: seq<Call>, b: nat) {
    b > 0 && forall i :: 0 <= i < |calls| ==> calls[i].cfg.blocksize == b
  }

  function FeedCalls<S(!new)>(rn: Denoiser<S>, t: Trace<S>, calls: seq<Call>, b: nat): Trace<S>
    requires ValidCalls(calls, b) && KeepsLength(rn)
  {
    if calls == [] then t
    else
      var last := calls[|calls| - 1];
      Feed(last.cfg, rn, FeedCalls(rn, t, calls[..|calls| - 1], b), last.chunk)
  }

  /** All the input, in order. */
  function Received(calls: seq<Call>): seq<real> {
    if calls == [] then [] else Received(calls[..|calls| - 1]) + calls[|calls| - 1].chunk
  }

  /** The settings in force when each sample came in. */
  function InForce(calls: seq<Call>): (cs: seq<Config>)
    ensures |cs| == |Received(calls)|
  {
    if calls == [] then []
    else InForce(calls[..|calls| - 1]) + seq(|calls[|calls| - 1].chunk|, _ => calls[|calls| - 1].cfg)
  }

  /** The settings that each complete frame is processed under: those of its last sample. */
  function FrameSettings(cs: seq<Config>, b: nat): (ks: seq<Config>)
    requires b > 0
    ensures |ks| == |Frames(cs, b)|
  {
    var fs := Frames(cs, b);
    seq(|fs|, i requires 0 <= i < |fs| => fs[i][b - 1])
  }

  function AfterUnder<S>(ks: seq<Config>, rn: Denoiser<S>, core: Core<S>, fs: seq<seq<real>>): Core<S>
    requires |ks| == |fs|
  {
    if fs == [] then core
    else NextCore(ks[|ks| - 1], rn, AfterUnder(ks[..|ks| - 1], rn, core, fs[..|fs| - 1]), fs[|fs| - 1])
  }

  function OutsUnder<S(!new)>(ks: seq<Config>, rn: Denoiser<S>, core: Core<S>, fs: seq<seq<real>>): (os: seq<seq<real>>)
    requires |ks| == |fs| && KeepsLength(rn)
    ensures |os| == |fs|
  {
    if fs == [] then []
    else
      var (ks', fs') := (ks[..|ks| - 1], fs[..|fs| - 1]);
      OutsUnder(ks', rn, core, fs') + [FrameOut(ks[|ks| - 1], rn, AfterUnder(ks', rn, core, fs'), fs[|fs| - 1])]
  }

  lemma {:induction false} FramesAlign<T, U>(s: seq<T>, t: seq<U>, b: nat)
    requires b > 0 && |s| == |t|
    ensures |Frames(s, b)| == |Frames(t, b)| && |Rest(s, b)| == |Rest(t, b)|
  {
    if |s| >= b { FramesAlign(s[b..], t[b..], b); }
  }

  /** Frame-by-frame processing of the stream s, of which sample i came in under settings cs[i]. */
  function Processed<S(!new)>(rn: Denoiser<S>, t: Trace<S>, s: seq<real>, cs: seq<Config>, b: nat): Trace<S>
    requires b > 0 && |s| == |cs| && KeepsLength(rn)
  {
    FramesAlign(s, cs, b);
    var (ks, fs) := (FrameSettings(cs, b), Frames(s, b));
    Trace(Rest(s, b), AfterUnder(ks, rn, t.core, fs), t.out + Flatten(OutsUnder(ks, rn, t.core, fs)))
  }

  lemma {:induction false} UnderResumes<S(!new)>(ks: seq<Config>, ls: seq<Config>, rn: Denoiser<S>, core: Core<S>,
                                                fs: seq<seq<real>>, gs: seq<seq<real>>)
    requires |ks| == |fs| && |ls| == |gs| && KeepsLength(rn)
    ensures AfterUnder(ks + ls, rn, core, fs + gs) == AfterUnder(ls, rn, AfterUnder(ks, rn, core, fs), gs)
    ensures OutsUnder(ks + ls, rn, core, fs + gs)
         == OutsUnder(ks, rn, core, fs) + OutsUnder(ls, rn, AfterUnder(ks, rn, core, fs), gs)
  {
    if gs == [] {
      assert fs + gs == fs && ks + ls == ks;
    } else {
      UnderResumes(ks, ls[..|ls| - 1], rn, core, fs, gs[..|gs| - 1]);
      assert (fs + gs)[..|fs + gs| - 1] == fs + gs[..|gs| - 1];
      assert (ks + ls)[..|ks + ls| - 1] == ks + ls[..|ls| - 1];
    }
  }

  /** Under the same settings throughout, this is the processing from before. */
  lemma {:induction false} UnderConstant<S(!new)>(cfg: Config, ks: seq<Config>, rn: Denoiser<S>, core: Core<S>, fs: seq<seq<real>>)
    requires |ks| == |fs| && KeepsLength(rn) && forall i :: 0 <= i < |ks| ==> ks[i] == cfg
    ensures AfterUnder(ks, rn, core, fs) == After(cfg, rn, core, fs) && OutsUnder(ks, rn, core, fs) == Outs(cfg, rn, core, fs)
  {
    if fs != [] { UnderConstant(cfg, ks[..|ks| - 1], rn, core, fs[..|fs| - 1]); }
  }

  /** Every frame that a call completes ends inside that call. */
  lemma {:induction false} EndsInside<T>(r: seq<T>, n: nat, x: T, b: nat, i: nat)
    requires |r| < b && i < |Frames(r + seq(n, _ => x), b)|
    ensures Frames(r + seq(n, _ => x), b)[i][b - 1] == x
    decreases i
  {
    var s := r + seq(n, _ => x);
    if |s| >= b && i > 0 {
      var m := |s| - b;
      assert s[b..] == [] + seq(m, _ => x);
      EndsInside([], m, x, b, i - 1);
    }
  }

  lemma CompletedSettings(cs: seq<Config>, cfg: Config, n: nat, b: nat)
    requires b > 0
    ensures var ls := FrameSettings(Rest(cs, b) + seq(n, _ => cfg), b);
            FrameSettings(cs + seq(n, _ => cfg), b) == FrameSettings(cs, b) + ls && forall i :: 0 <= i < |ls| ==> ls[i] == cfg
  {
    var r, new' := Rest(cs, b), seq(n, _ => cfg);
    FramesResume(cs, new', b);
    forall i | 0 <= i < |Frames(r + new', b)| ensures Frames(r + new', b)[i][b - 1] == cfg { EndsInside(r, n, cfg, b, i); }
  }

  /** One more call continues the frame-by-frame processing. */
  lemma ProcessedStep<S(!new)>(rn: Denoiser<S>, t: Trace<S>, s: seq<real>, cs: seq<Config>, call: Call)
    requires call.cfg.blocksize > 0 && |s| == |cs| && KeepsLength(rn)
    ensures var b := call.cfg.blocksize;
            Feed(call.cfg, rn, Processed(rn, t, s, cs, b), call.chunk)
              == Processed(rn, t, s + call.chunk, cs + seq(|call.chunk|, _ => call.cfg), b)
  {
    hide Frames, Rest, Flatten, AfterUnder, OutsUnder, After, Outs, FrameSettings;
    var cfg, b, n := call.cfg, call.cfg.blocksize, |call.chunk|;
    var new' := seq(n, _ => cfg);
    FramesAlign(s, cs, b);
    var gs := Frames(Rest(s, b) + call.chunk, b);
    FramesAlign(Rest(s, b) + call.chunk, Rest(cs, b) + new', b);
    var ks, ls := FrameSettings(cs, b), FrameSettings(Rest(cs, b) + new', b);
    FramesResume(s, call.chunk, b);
    CompletedSettings(cs, cfg, n, b);
    var core := AfterUnder(ks, rn, t.core, Frames(s, b));
    UnderResumes(ks, ls, rn, t.core, Frames(s, b), gs);
    UnderConstant(cfg, ls, rn, core, gs);
    FlattenAppend(OutsUnder(ks, rn, t.core, Frames(s, b)), OutsUnder(ls, rn, core, gs));
  }

  /**
   * Any run of calls under changing settings: every frame is processed under the settings of the call that completes it.
   * before holds settings for the samples already buffered, any settings: no frame ends there.
   */
  lemma {:induction false} CallsAreFrames<S(!new)>(rn: Denoiser<S>, t: Trace<S>, calls: seq<Call>, before: seq<Config>, b: nat)
    requires ValidCalls(calls, b) && KeepsLength(rn) && |t.data| == |before| < b
    ensures FeedCalls(rn, t, calls, b) == Processed(rn, t, t.data + Received(calls), before + InForce(calls), b)
  {
    hide Processed, Feed;
    if calls == [] {
      ProcessedNothing(rn, t, before, b);
      assert t.data + [] == t.data && before + [] == before;
    } else {
      var calls', last := calls[..|calls| - 1], calls[|calls| - 1];
      var s, cs := t.data + Received(calls'), before + InForce(calls');
      assert t.data + Received(calls) == s + last.chunk;
      assert before + InForce(calls) == cs + seq(|last.chunk|, _ => last.cfg);
      assert FeedCalls(rn, t, calls, b) == Feed(last.cfg, rn, FeedCalls(rn, t, calls', b), last.chunk);
      hide FeedCalls, Received, InForce;
      CallsAreFrames(rn, t, calls', before, b);
      ProcessedStep(rn, t, s, cs, last);
    }
  }

  lemma ProcessedNothing<S(!new)>(rn: Denoiser<S>, t: Trace<S>, before: seq<Config>, b: nat)
    requires KeepsLength(rn) && |t.data| == |before| < b
    ensures Processed(rn, t, t.data, before, b) == t
  {
    assert Frames(t.data, b) == [] && Frames(before, b) == [];
  }

  lemma FeedCallsNext<S(!new)>(rn: Denoiser<S>, t: Trace<S>, calls: seq<Call>, i: nat, b: nat)
    requires ValidCalls(calls, b) && KeepsLength(rn) && i < |calls|
    ensures FeedCalls(rn, t, calls[..i + 1], b) == Feed(calls[i].cfg, rn, FeedCalls(rn, t, calls[..i], b), calls[i].chunk)
  {
    hide Feed;
    assert calls[..i + 1][..i] == calls[..i];
  }

  /** Two ways of cutting the same input, under the same settings at every sample, are the same run. */
  lemma CutsDoNotMatter<S(!new)>(rn: Denoiser<S>, t: Trace<S>, calls: seq<Call>, calls': seq<Call>, b: nat)
    requires ValidCalls(calls, b) && ValidCalls(calls', b) && KeepsLength(rn) && |t.data| < b
    requires Received(calls) == Received(calls') && InForce(calls) == InForce(calls')
    ensures FeedCalls(rn, t, calls, b) == FeedCalls(rn, t, calls', b)
  {
    var before := seq(|t.data|, _ => Config(b, false, 0.0, 0.0, 0));
    CallsAreFrames(rn, t, calls, before, b);
    CallsAreFrames(rn, t, calls', before, b);
  }

  // ----- the plugin -----

  const RATE := 48000.0
  const BLOCKSIZE := 480

  /** The hangover in frames: a member that nothing assigns after its initialisation. */
  const RELEASE := 2

  /** The settings that can change from call to call. */
  datatype Switches = Switches(enableVad: bool, threshold: real, wet: real)

  function CallsOf(switches: seq<Switches>, chunks: seq<seq<real>>): (calls: seq<Call>)
    requires |switches| == |chunks|
    ensures |calls| == |chunks| && ValidCalls(calls, BLOCKSIZE)
  {
    seq(|chunks|, i requires 0 <= i < |chunks| =>
      Call(Config(BLOCKSIZE, switches[i].enableVad, switches[i].threshold, switches[i].wet, RELEASE), chunks[i]))
  }

  class Plugin<S(!new)> {
    var rnnoise: Denoiser<S>
    var cfg: Config
    var dataL: seq<real>
    var dataR: seq<real>
    var left: Core<S>
    var right: Core<S>

    /** Between calls both buffers hold less than a frame. */
    ghost predicate Valid()
      reads this
    {
      && cfg.blocksize == BLOCKSIZE && cfg.release == RELEASE && KeepsLength(rnnoise)
      && |dataL| < BLOCKSIZE && |dataR| < BLOCKSIZE
    }

    /** Empty buffers, a grace period of RELEASE frames, and a state per channel if the library could create one. */
    constructor (rnnoise: Denoiser<S>, enableVad: bool, threshold: real, wet: real, state: Option<S>)
      requires KeepsLength(rnnoise)
      ensures Valid() && this.rnnoise == rnnoise && cfg == Config(BLOCKSIZE, enableVad, threshold, wet, RELEASE)
      ensures dataL == dataR == [] && left == right == Core(RELEASE, 1.0, state)
    {
      this.rnnoise := rnnoise;
      cfg := Config(BLOCKSIZE, enableVad, threshold, wet, RELEASE);
      dataL, dataR := [], [];
      left, right := Core(RELEASE, 1.0, state), Core(RELEASE, 1.0, state);
    }

    /** The handlers of the switches; buffers, counters and states carry on. */
    method Configure(enableVad: bool, threshold: real, wet: real)
      requires Valid()
      modifies this`cfg
      ensures Valid() && cfg == Config(BLOCKSIZE, enableVad, threshold, wet, RELEASE)
    {
      cfg := cfg.(enableVad := enableVad, threshold := threshold, wet := wet);
    }

    /** init_release: the new value goes to a local variable and to the counters, so the hangover itself stays as it was. */
    method InitRelease(milliseconds: real)
      requires Valid()
      modifies this`left, this`right
      ensures Valid()
      ensures left == old(left).(grace := right.grace) && right == old(right).(grace := left.grace)
      ensures left.grace == ReleaseFrames(milliseconds)
    {
      var release := Round(RATE * milliseconds / 1000.0 / BLOCKSIZE as real);
      left := left.(grace := release);
      right := right.(grace := release);
    }

    /** Another model: new states for both channels, everything else carries on. */
    method ChangeModel(rnnoise: Denoiser<S>, state: Option<S>)
      requires Valid() && KeepsLength(rnnoise)
      modifies this`rnnoise, this`left, this`right
      ensures Valid() && this.rnnoise == rnnoise
      ensures left == old(left).(state := state) && right == old(right).(state := state)
    {
      this.rnnoise := rnnoise;
      left, right := left.(state := state), right.(state := state);
    }

    /** setup: the buffers are emptied. */
    method Setup()
      requires Valid()
      modifies this`dataL, this`dataR
      ensures Valid() && dataL == dataR == []
    {
      dataL, dataR := [], [];
    }

    /**
     * One call. Each channel appends to its output what frame-by-frame processing of its buffer followed by
     * its input emits; neither channel depends on the other.
     */
    method RemoveNoise(leftIn: seq<real>, rightIn: seq<real>, outL: seq<real>, outR: seq<real>)
      returns (outL': seq<real>, outR': seq<real>)
      requires Valid()
      modifies this`dataL, this`dataR, this`left, this`right
      ensures Valid()
      ensures outL' == outL + Emitted(cfg, rnnoise, old(left), old(dataL) + leftIn)
      ensures outR' == outR + Emitted(cfg, rnnoise, old(right), old(dataR) + rightIn)
      ensures dataL == Rest(old(dataL) + leftIn, cfg.blocksize) && left == Settled(cfg, rnnoise, old(left), old(dataL) + leftIn)
      ensures dataR == Rest(old(dataR) + rightIn, cfg.blocksize) && right == Settled(cfg, rnnoise, old(right), old(dataR) + rightIn)
    {
      dataL, left, outL' := Denoise(cfg, rnnoise, dataL, left, leftIn, outL);
      dataR, right, outR' := Denoise(cfg, rnnoise, dataR, right, rightIn, outR);
    }

    /** One call under the switches as they stand then. */
    method ProcessCall(settings: Config, leftIn: seq<real>, rightIn: seq<real>, outL: seq<real>, outR: seq<real>)
      returns (outL': seq<real>, outR': seq<real>)
      requires Valid() && settings.blocksize == BLOCKSIZE && settings.release == RELEASE
      modifies this`cfg, this`dataL, this`dataR, this`left, this`right
      ensures Valid()
      ensures Trace(dataL, left, outL') == Feed(settings, rnnoise, Trace(old(dataL), old(left), outL), leftIn)
      ensures Trace(dataR, right, outR') == Feed(settings, rnnoise, Trace(old(dataR), old(right), outR), rightIn)
    {
      hide Rest, Settled, Emitted, KeepsLength;
      Configure(settings.enableVad, settings.threshold, settings.wet);
      outL', outR' := RemoveNoise(leftIn, rightIn, outL, outR);
    }

    /**
     * A session: call after call, with the switches changing in between. Each channel does what feeding it the calls
     * does, which is frame-by-frame processing of all its input, however it was cut.
     */
    method Session(switches: seq<Switches>, lefts: seq<seq<real>>, rights: seq<seq<real>>)
      returns (outL: seq<real>, outR: seq<real>)
      requires Valid() && |lefts| == |rights| == |switches|
      modifies this`cfg, this`dataL, this`dataR, this`left, this`right
      ensures Valid()
      ensures Trace(dataL, left, outL)
           == FeedCalls(rnnoise, Trace(old(dataL), old(left), []), CallsOf(switches, lefts), BLOCKSIZE)
      ensures Trace(dataR, right, outR)
           == FeedCalls(rnnoise, Trace(old(dataR), old(right), []), CallsOf(switches, rights), BLOCKSIZE)
    {
      ghost var l, r := Trace(dataL, left, []), Trace(dataR, right, []);
      var ls := CallsOf(switches, lefts);
      ghost var rs := CallsOf(switches, rights);
      outL, outR := [], [];
      assert ls[..0] == [] && rs[..0] == [];
      hide Rest, Settled, Emitted, KeepsLength;
      for i := 0 to |lefts|
        invariant Valid()
        invariant Trace(dataL, left, outL) == FeedCalls(rnnoise, l, ls[..i], BLOCKSIZE)
        invariant Trace(dataR, right, outR) == FeedCalls(rnnoise, r, rs[..i], BLOCKSIZE)
      {
        hide FeedCalls, Feed;
        FeedCallsNext(rnnoise, l, ls, i, BLOCKSIZE);
        FeedCallsNext(rnnoise, r, rs, i, BLOCKSIZE);
        assert rs[i].cfg == ls[i].cfg;
        outL, outR := ProcessCall(ls[i].cfg, lefts[i], rights[i], outL, outR);
      }
      assert ls[..|lefts|] == ls && rs[..|lefts|] == rs;
    }
  }

  /** The loop over one channel: push a sample, and process the buffer whenever it is a full frame. */
  method Denoise<S(!new)>(cfg: Config, rn: Denoiser<S>, data: seq<real>, core: Core<S>, input: seq<real>, out: seq<real>)
    returns (data': seq<real>, core': Core<S>, out': seq<real>)
    requires cfg.blocksize > 0 && KeepsLength(rn) && |data| < cfg.blocksize
    ensures data' == Rest(data + input, cfg.blocksize)
    ensures core' == Settled(cfg, rn, core, data + input)
    ensures out' == out + Emitted(cfg, rn, core, data + input)
  {
    data', core', out' := data, core, out;
    assert data + input[..0] == data;
    assert Frames(data, cfg.blocksize) == [];
    hide Rest, Frames, Flatten, Outs, After;
    for i := 0 to |input|
      invariant data' == Rest(data + input[..i], cfg.blocksize)
      invariant core' == Settled(cfg, rn, core, data + input[..i])
      invariant out' == out + Emitted(cfg, rn, core, data + input[..i])
    {
      hide Settled, Emitted;
      assert data + input[..i + 1] == (data + input[..i]) + [input[i]];
      Push(cfg, rn, core, data + input[..i], input[i]);
      data' := data' + [input[i]];
      if |data'| == cfg.blocksize {
        var frame: seq<real>;
        frame, core' := ProcessFrame(cfg, rn, core', data');
        out' := out' + frame;
        data' := [];
      }
    }
    assert input[..|input|] == input;
  }

  /** One more sample: a full buffer is processed and emptied, any other only grows. */
  lemma Push<S(!new)>(cfg: Config, rn: Denoiser<S>, core: Core<S>, fed: seq<real>, x: real)
    requires cfg.blocksize > 0 && KeepsLength(rn)
    ensures var (u, c) := (Rest(fed, cfg.blocksize) + [x], Settled(cfg, rn, core, fed));
            if |u| == cfg.blocksize then
              && Rest(fed + [x], cfg.blocksize) == []
              && Settled(cfg, rn, core, fed + [x]) == NextCore(cfg, rn, c, u)
              && Emitted(cfg, rn, core, fed + [x]) == Emitted(cfg, rn, core, fed) + FrameOut(cfg, rn, c, u)
            else
              && Rest(fed + [x], cfg.blocksize) == u
              && Settled(cfg, rn, core, fed + [x]) == c
              && Emitted(cfg, rn, core, fed + [x]) == Emitted(cfg, rn, core, fed)
  {
    var u, c := Rest(fed, cfg.blocksize) + [x], Settled(cfg, rn, core, fed);
    EmittedResumes(cfg, rn, core, fed, [x]);
    FramesResume(fed, [x], cfg.blocksize);
    if |u| == cfg.blocksize {
      hide Settled, Emitted, Rest, Frames;
      FullFrame(cfg, rn, c, u);
    } else {
      PartFrame(cfg, rn, c, u);
    }
  }

  lemma PartFrame<S(!new)>(cfg: Config, rn: Denoiser<S>, core: Core<S>, u: seq<real>)
    requires KeepsLength(rn) && |u| < cfg.blocksize
    ensures Rest(u, cfg.blocksize) == u && Emitted(cfg, rn, core, u) == [] && Settled(cfg, rn, core, u) == core
  {
    assert Frames(u, cfg.blocksize) == [];
  }

  lemma FullFrame<S(!new)>(cfg: Config, rn: Denoiser<S>, core: Core<S>, u: seq<real>)
    requires cfg.blocksize > 0 && KeepsLength(rn) && |u| == cfg.blocksize
    ensures Rest(u, cfg.blocksize) == []
    ensures Emitted(cfg, rn, core, u) == FrameOut(cfg, rn, core, u)
    ensures Settled(cfg, rn, core, u) == NextCore(cfg, rn, core, u)
  {
    assert u[..cfg.blocksize] == u && u[cfg.blocksize..] == [];
    assert Frames(u, cfg.blocksize) == [u];
    assert [u][..0] == [];
    assert Outs(cfg, rn, core, [u]) == [FrameOut(cfg, rn, core, u)];
    FlattenOne(FrameOut(cfg, rn, core, u));
  }

  /** One full buffer: scale, denoise, gate, mix, scale back. */
  method ProcessFrame<S(!new)>(cfg: Config, rn: Denoiser<S>, core: Core<S>, data: seq<real>)
    returns (out: seq<real>, core': Core<S>)
    requires KeepsLength(rn)
    ensures out == FrameOut(cfg, rn, core, data) && core' == NextCore(cfg, rn, core, data)
  {
    if core.state.None? { return data, core; }
    var tmp := Scaled(data);
    var (state, denoised, prob) := rn(core.state.value, tmp);
    var grace := core.grace;
    if cfg.enableVad {
      if prob >= cfg.threshold {
        grace := cfg.release;
      }
      if grace >= 0 {
        grace := grace - 1;
        out := MixLoop(cfg.wet, denoised, tmp);
      } else {
        out := Zeros(|data|);
      }
    } else {
      out := MixLoop(cfg.wet, denoised, tmp);
    }
    core' := Core(grace, prob, Some(state));
  }

  method MixLoop(wet: real, denoised: seq<real>, tmp: seq<real>) returns (out: seq<real>)
    requires |denoised| == |tmp|
    ensures out == Mixed(wet, denoised, tmp)
  {
    out := denoised;
    for i := 0 to |out|
      invariant |out| == |tmp|
      invariant forall k :: 0 <= k < i ==> out[k] == Mixed(wet, denoised, tmp)[k]
      invariant forall k :: i <= k < |out| ==> out[k] == denoised[k]
    {
      out := out[i := out[i] * wet + tmp[i] * (1.0 - wet)];
      out := out[i := out[i] * (1.0 / SHORT_SCALE)];
    }
  }
}
