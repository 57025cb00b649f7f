/** The crystalizer: per-band peak enhancement of an audio stream that arrives in blocks. */
module Crystalizer {
  import opened Blocks
  import opened Numbers

  const NBANDS: nat := 13

  /** One stereo sample; left and right always go through the same arithmetic. */
  datatype Frame = Frame(l: real, r: real)

  const Silence := Frame(0.0, 0.0)

  function Add(a: Frame, b: Frame): Frame {
    Frame(a.l + b.l, a.r + b.r)
  }

  /** Central second difference. */
  function SecondDifference(lower: Frame, mid: Frame, upper: Frame): Frame {
    Frame(upper.l - 2.0 * mid.l + lower.l, upper.r - 2.0 * mid.r + lower.r)
  }

  function Sharpen(mid: Frame, intensity: real, d2: Frame): Frame {
    Frame(mid.l - intensity * d2.l, mid.r - intensity * d2.r)
  }

  // ----- one band, one block -----

  /** What a band remembers between blocks: the last two samples it has not finished with. */
  datatype Carry = Carry(last: Frame, next: Frame)

  const Start := Carry(Silence, Silence)

  /** The settings of a band while a block is processed. */
  datatype Setting = Setting(intensity: real, bypass: bool)

  /** The filtered block, one sample late: the newest sample waits for the next block. */
  function Delayed(c: Carry, block: seq<Frame>): (d: seq<Frame>)
    requires |block| >= 2
    ensures |d| == |block|
  {
    [c.next] + block[..|block| - 1]
  }

  /** The second difference at sample m of a block, whose outer neighbours are last and next. */
  function CurvatureAt(d: seq<Frame>, last: Frame, next: Frame, m: nat): Frame
    requires m < |d|
  {
    SecondDifference(if m == 0 then last else d[m - 1], d[m], if m == |d| - 1 then next else d[m + 1])
  }

  function BandSample(c: Carry, block: seq<Frame>, s: Setting, m: nat): Frame
    requires |block| >= 2 && m < |block|
  {
    var d := Delayed(c, block);
    if s.bypass then d[m] else Sharpen(d[m], s.intensity, CurvatureAt(d, c.last, block[|block| - 1], m))
  }

  function BandOut(c: Carry, block: seq<Frame>, s: Setting): (out: seq<Frame>)
    requires |block| >= 2
    ensures |out| == |block|
  {
    seq(|block|, m requires 0 <= m < |block| => BandSample(c, block, s, m))
  }

  function BandCarry(block: seq<Frame>): Carry
    requires |block| >= 2
  {
    Carry(block[|block| - 2], block[|block| - 1])
  }

  // ----- one band, a whole stream -----

  datatype Call = Call(block: seq<Frame>, setting: Setting)

  ghost predicate ValidCalls(calls: seq<Call>) {
    forall i :: 0 <= i < |calls| ==> |calls[i].block| >= 2
  }

  /** Everything the band was fed, in order. */
  ghost function Stream(calls: seq<Call>): seq<Frame> {
    if calls == [] then [] else Stream(calls[..|calls| - 1]) + calls[|calls| - 1].block
  }

  /** The setting in force for each sample of the stream. */
  ghost function Settings(calls: seq<Call>): (s: seq<Setting>)
    ensures |s| == |Stream(calls)|
  {
    if calls == [] then []
    else
      var last := calls[|calls| - 1];
      Settings(calls[..|calls| - 1]) + seq(|last.block|, _ => last.setting)
  }

  ghost function RunCarry(c: Carry, calls: seq<Call>): Carry
    requires ValidCalls(calls)
  {
    if calls == [] then c else BandCarry(calls[|calls| - 1].block)
  }

  /** The concatenated output of a run of blocks, starting from carry c. */
  ghost function Run(c: Carry, calls: seq<Call>): (out: seq<Frame>)
    requires ValidCalls(calls)
    ensures |out| == |Stream(calls)|
  {
    if calls == [] then []
    else
      var before, last := calls[..|calls| - 1], calls[|calls| - 1];
      Run(c, before) + BandOut(RunCarry(c, before), last.block, last.setting)
  }

  // The same thing said without blocks.

  ghost function At(s: seq<Frame>, k: int): Frame {
    if 0 <= k < |s| then s[k] else Silence
  }

  /** Sample k of the enhanced stream: the signal one sample late, minus intensity times its second difference. */
  ghost function Enhanced(s: seq<Frame>, k: nat, how: Setting): Frame {
    if how.bypass then At(s, k - 1)
    else Sharpen(At(s, k - 1), how.intensity, SecondDifference(At(s, k - 2), At(s, k - 1), At(s, k)))
  }

  ghost function EnhancedStream(s: seq<Frame>, sets: seq<Setting>): (out: seq<Frame>)
    requires |s| == |sets|
    ensures |out| == |s|
  {
    seq(|s|, k requires 0 <= k < |s| => Enhanced(s, k, sets[k]))
  }

  /** The carry after a run is the end of the stream. */
  lemma CarryIsTail(calls: seq<Call>)
    requires ValidCalls(calls)
    ensures RunCarry(Start, calls) == Carry(At(Stream(calls), |Stream(calls)| - 2), At(Stream(calls), |Stream(calls)| - 1))
  {
  }

  lemma StreamStep(s: seq<Frame>, sets: seq<Setting>, b: seq<Frame>, how: Setting)
    requires |s| == |sets| && |b| >= 2
    ensures EnhancedStream(s + b, sets + seq(|b|, _ => how))
         == EnhancedStream(s, sets) + BandOut(Carry(At(s, |s| - 2), At(s, |s| - 1)), b, how)
  {
  }

  /**
   * Block boundaries are unobservable: from silence, the output of any run of blocks, of any sizes from two
   * up and under any schedule of settings, is the enhanced form of the whole stream.
   */
  lemma {:induction false} RunIsEnhancedStream(calls: seq<Call>)
    requires ValidCalls(calls)
    ensures Run(Start, calls) == EnhancedStream(Stream(calls), Settings(calls))
  {
    if calls != [] {
      var before, last := calls[..|calls| - 1], calls[|calls| - 1];
      RunIsEnhancedStream(before);
      CarryIsTail(before);
      hide EnhancedStream, BandOut;
      StreamStep(Stream(before), Settings(before), last.block, last.setting);
    }
  }

  /** A sample of one channel from which gain times the second difference at it is subtracted. */
  function Peak(older: real, mid: real, newer: real, gain: real): real {
    mid - gain * (newer - 2.0 * mid + older)
  }

  function Gain(how: Setting): real {
    if how.bypass then 0.0 else how.intensity
  }

  lemma EnhancedSample(s: seq<Frame>, k: nat, how: Setting)
    ensures Enhanced(s, k, how).l == Peak(At(s, k - 2).l, At(s, k - 1).l, At(s, k).l, Gain(how))
    ensures Enhanced(s, k, how).r == Peak(At(s, k - 2).r, At(s, k - 1).r, At(s, k).r, Gain(how))
  {
    hide At;
  }

  /**
   * The enhancement in full, on both channels: the input one sample late, minus the intensity times its second difference
   * unless the band is bypassed; before its start the input is silent.
   */
  lemma RunSample(calls: seq<Call>, k: nat)
    requires ValidCalls(calls) && k < |Stream(calls)|
    ensures var (x, out, gain) := (Stream(calls), Run(Start, calls)[k], Gain(Settings(calls)[k]));
            && out.l == Peak(At(x, k - 2).l, At(x, k - 1).l, At(x, k).l, gain)
            && out.r == Peak(At(x, k - 2).r, At(x, k - 1).r, At(x, k).r, gain)
  {
    RunIsEnhancedStream(calls);
    hide Run, Stream, Settings, Enhanced, Peak, At, Gain;
    EnhancedSample(Stream(calls), k, Settings(calls)[k]);
  }

  /** Two ways of cutting the same stream, with the same setting at every sample, sound the same. */
  lemma CutsAreUnobservable(calls: seq<Call>, calls': seq<Call>)
    requires ValidCalls(calls) && ValidCalls(calls')
    requires Stream(calls) == Stream(calls') && Settings(calls) == Settings(calls')
    ensures Run(Start, calls) == Run(Start, calls')
  {
    RunIsEnhancedStream(calls);
    RunIsEnhancedStream(calls');
  }

  // ----- a band that does not start from silence -----

  /** The carries from which the first block already comes out right. */
  predicate Harmless(c: Carry, first: Setting) {
    c.next == Silence && (first.bypass || first.intensity == 0.0 || c.last == Silence)
  }

  lemma HarmlessFirst(c: Carry, b: seq<Frame>, how: Setting)
    requires |b| >= 2
    ensures BandOut(c, b, how) == BandOut(Start, b, how) <==> Harmless(c, how)
  {
    var x, y := BandOut(c, b, how), BandOut(Start, b, how);
    assert x[0] == BandSample(c, b, how, 0) && y[0] == BandSample(Start, b, how, 0);
    assert x[1] == BandSample(c, b, how, 1) && y[1] == BandSample(Start, b, how, 1);
    if Harmless(c, how) {
      assert Delayed(c, b) == Delayed(Start, b);
      assert forall m :: 0 <= m < |b| ==> BandSample(c, b, how, m) == BandSample(Start, b, how, m);
    } else if !how.bypass && c.next == Silence {
      SharpenCancels(c.last, how.intensity, b[0]);
    } else if !how.bypass && how.intensity != 0.0 {
      StaleSecond(c.next, how.intensity, b[0], b[1]);
    }
  }

  lemma SharpenCancels(last: Frame, i: real, upper: Frame)
    requires i != 0.0
    ensures (Sharpen(Silence, i, SecondDifference(last, Silence, upper))
             == Sharpen(Silence, i, SecondDifference(Silence, Silence, upper))) <==> last == Silence
  {
  }

  lemma StaleSecond(next: Frame, i: real, mid: Frame, upper: Frame)
    requires i != 0.0
    ensures (Sharpen(mid, i, SecondDifference(next, mid, upper))
             == Sharpen(mid, i, SecondDifference(Silence, mid, upper))) <==> next == Silence
  {
  }

  /** After its first block a band has forgotten the carry it started from. */
  lemma {:induction false} RunForgets(c: Carry, calls: seq<Call>)
    requires ValidCalls(calls) && |calls| > 0
    ensures Run(c, calls) == Run(Start, calls) <==>
            BandOut(c, calls[0].block, calls[0].setting) == BandOut(Start, calls[0].block, calls[0].setting)
  {
    var before, last := calls[..|calls| - 1], calls[|calls| - 1];
    if |calls| > 1 {
      RunForgets(c, before);
      var x, y, o := Run(c, before), Run(Start, before), BandOut(BandCarry(before[|before| - 1].block), last.block, last.setting);
      assert Run(c, calls) == x + o && Run(Start, calls) == y + o;
      assert (x + o)[..|x|] == x && (y + o)[..|y|] == y;
    } else {
      assert before == [] && calls[0] == last;
      assert Run(c, calls) == BandOut(c, last.block, last.setting);
      assert Run(Start, calls) == BandOut(Start, last.block, last.setting);
    }
  }

  /** A run from any carry gives the enhanced stream exactly when that carry is harmless. */
  lemma StaleCarry(c: Carry, calls: seq<Call>)
    requires ValidCalls(calls) && |calls| > 0
    ensures Run(c, calls) == EnhancedStream(Stream(calls), Settings(calls)) <==> Harmless(c, calls[0].setting)
  {
    RunIsEnhancedStream(calls);
    RunForgets(c, calls);
    HarmlessFirst(c, calls[0].block, calls[0].setting);
  }

  // ----- the plugin -----

  /** The sum of the first n bands that are not muted, at sample m. */
  function Mix(bands: seq<seq<Frame>>, mute: seq<bool>, m: nat, n: nat): Frame
    requires n <= |bands| && n <= |mute|
  {
    if n == 0 then Silence
    else
      var sum := Mix(bands, mute, m, n - 1);
      if mute[n - 1] then sum else Add(sum, if m < |bands[n - 1]| then bands[n - 1][m] else Silence)
  }

  /** With every band muted nothing is heard ... */
  lemma {:induction false} AllMuted(bands: seq<seq<Frame>>, mute: seq<bool>, m: nat, n: nat)
    requires n <= |bands| && n <= |mute| && forall j :: 0 <= j < n ==> mute[j]
    ensures Mix(bands, mute, m, n) == Silence
  {
    if n > 0 { AllMuted(bands, mute, m, n - 1); }
  }

  /** ... and opening a muted band adds its sample to whatever is heard. */
  lemma {:induction false} MixOpens(bands: seq<seq<Frame>>, mute: seq<bool>, m: nat, n: nat, j: nat)
    requires j < n <= |bands| && n <= |mute| && mute[j] && m < |bands[j]|
    ensures Mix(bands, mute[j := false], m, n).l == Mix(bands, mute, m, n).l + bands[j][m].l
    ensures Mix(bands, mute[j := false], m, n).r == Mix(bands, mute, m, n).r + bands[j][m].r
  {
    if j < n - 1 {
      MixOpens(bands, mute, m, n - 1, j);
    } else {
      MixAhead(bands, mute, mute[j := false], m, n - 1);
    }
  }

  lemma {:induction false} MixAhead(bands: seq<seq<Frame>>, mute: seq<bool>, mute': seq<bool>, m: nat, n: nat)
    requires n <= |bands| && n <= |mute| && n <= |mute'| && forall j :: 0 <= j < n ==> mute[j] == mute'[j]
    ensures Mix(bands, mute, m, n) == Mix(bands, mute', m, n)
  {
    if n > 0 { MixAhead(bands, mute, mute', m, n - 1); }
  }

  /** A muted band is not heard. */
  lemma {:induction false} MutedIsSilent(bands: seq<seq<Frame>>, mute: seq<bool>, m: nat, n: nat, j: nat, band: seq<Frame>)
    requires j < |bands| && n <= |bands| && n <= |mute| && j < |mute| && mute[j]
    ensures Mix(bands[j := band], mute, m, n) == Mix(bands, mute, m, n)
  {
    if n > 0 { MutedIsSilent(bands, mute, m, n - 1, j, band); }
  }

  /** A band that is open alone is what is heard. */
  lemma OnlyOpen(bands: seq<seq<Frame>>, mute: seq<bool>, m: nat, n: nat, j: nat)
    requires j < n <= |bands| && n <= |mute| && m < |bands[j]| && forall i :: 0 <= i < n ==> mute[i] == (i != j)
    ensures Mix(bands, mute, m, n) == bands[j][m]
  {
    var closed := mute[j := true];
    AllMuted(bands, closed, m, n);
    MixOpens(bands, closed, m, n, j);
    assert closed[j := false] == mute;
  }

  lemma {:induction false} MixSame(bands: seq<seq<Frame>>, bands': seq<seq<Frame>>, mute: seq<bool>, m: nat, m': nat, n: nat)
    requires n <= |bands| == |bands'| && n <= |mute|
    requires forall j :: 0 <= j < n ==> At(bands[j], m) == At(bands'[j], m')
    ensures Mix(bands, mute, m, n) == Mix(bands', mute, m', n)
  {
    if n > 0 { MixSame(bands, bands', mute, m, m', n - 1); }
  }

  /** One call of the plugin: the filtered block, the setting and the mute switch of every band. */
  datatype Round = Round(blocks: seq<seq<Frame>>, settings: seq<Setting>, mute: seq<bool>) {
    ghost predicate Valid() {
      && |blocks| == |settings| == |mute| == NBANDS && |blocks[0]| >= 2
      && forall n :: 0 <= n < NBANDS ==> |blocks[n]| == |blocks[0]|
    }
  }

  ghost predicate ValidRounds(rounds: seq<Round>) {
    forall i :: 0 <= i < |rounds| ==> rounds[i].Valid()
  }

  ghost function RoundBands(cs: seq<Carry>, r: Round): (bands: seq<seq<Frame>>)
    requires r.Valid() && |cs| == NBANDS
    ensures |bands| == NBANDS
  {
    seq(NBANDS, n requires 0 <= n < NBANDS => BandOut(cs[n], r.blocks[n], r.settings[n]))
  }

  /** What one call puts out. */
  ghost function RoundOut(cs: seq<Carry>, r: Round): (out: seq<Frame>)
    requires r.Valid() && |cs| == NBANDS
    ensures |out| == |r.blocks[0]|
  {
    seq(|r.blocks[0]|, m requires 0 <= m < |r.blocks[0]| => Mix(RoundBands(cs, r), r.mute, m, NBANDS))
  }

  /** The calls as band n sees them. */
  ghost function BandCalls(rounds: seq<Round>, n: nat): (calls: seq<Call>)
    requires ValidRounds(rounds) && n < NBANDS
    ensures |calls| == |rounds| && ValidCalls(calls)
  {
    seq(|rounds|, i requires 0 <= i < |rounds| => Call(rounds[i].blocks[n], rounds[i].settings[n]))
  }

  ghost function Carries(cs: seq<Carry>, rounds: seq<Round>): (cs': seq<Carry>)
    requires ValidRounds(rounds) && |cs| == NBANDS
    ensures |cs'| == NBANDS
  {
    seq(NBANDS, n requires 0 <= n < NBANDS => RunCarry(cs[n], BandCalls(rounds, n)))
  }

  /** Everything the plugin puts out over a run of calls. */
  ghost function Played(cs: seq<Carry>, rounds: seq<Round>): seq<Frame>
    requires ValidRounds(rounds) && |cs| == NBANDS
  {
    if rounds == [] then []
    else
      var before := rounds[..|rounds| - 1];
      Played(cs, before) + RoundOut(Carries(cs, before), rounds[|rounds| - 1])
  }

  /** The mute switches in force for each sample. */
  ghost function Mutes(rounds: seq<Round>): (ms: seq<seq<bool>>)
    requires ValidRounds(rounds)
    ensures forall k :: 0 <= k < |ms| ==> |ms[k]| == NBANDS
  {
    if rounds == [] then []
    else
      var last := rounds[|rounds| - 1];
      Mutes(rounds[..|rounds| - 1]) + seq(|last.blocks[0]|, _ => last.mute)
  }

  ghost function BandRuns(cs: seq<Carry>, rounds: seq<Round>): (bands: seq<seq<Frame>>)
    requires ValidRounds(rounds) && |cs| == NBANDS
    ensures |bands| == NBANDS
  {
    seq(NBANDS, n requires 0 <= n < NBANDS => Run(cs[n], BandCalls(rounds, n)))
  }

  lemma BandRunStep(cs: seq<Carry>, rounds: seq<Round>, n: nat)
    requires ValidRounds(rounds) && |cs| == NBANDS && n < NBANDS && |rounds| > 0
    ensures var before := rounds[..|rounds| - 1];
            BandRuns(cs, rounds)[n]
              == BandRuns(cs, before)[n] + RoundBands(Carries(cs, before), rounds[|rounds| - 1])[n]
  {
    hide BandOut;
    var calls := BandCalls(rounds, n);
    assert calls[..|calls| - 1] == BandCalls(rounds[..|rounds| - 1], n);
  }

  /** All bands have been fed equally much, and as much has come out. */
  lemma {:induction false} PlayedLength(cs: seq<Carry>, rounds: seq<Round>, n: nat)
    requires ValidRounds(rounds) && |cs| == NBANDS && n < NBANDS
    ensures |Played(cs, rounds)| == |Mutes(rounds)| == |BandRuns(cs, rounds)[n]|
  {
    if rounds != [] {
      PlayedLength(cs, rounds[..|rounds| - 1], n);
      BandRunStep(cs, rounds, n);
    }
  }

  /** The output of the plugin is, sample by sample, the sum of the runs of the bands that are not muted then. */
  lemma {:induction false} PlayedIsMixedRuns(cs: seq<Carry>, rounds: seq<Round>, k: nat)
    requires ValidRounds(rounds) && |cs| == NBANDS && k < |Played(cs, rounds)|
    ensures k < |Mutes(rounds)|
    ensures Played(cs, rounds)[k] == Mix(BandRuns(cs, rounds), Mutes(rounds)[k], k, NBANDS)
  {
    hide BandRuns, RoundBands, Carries, Mix;
    var before, last := rounds[..|rounds| - 1], rounds[|rounds| - 1];
    var old', now := BandRuns(cs, before), RoundBands(Carries(cs, before), last);
    var size := |Played(cs, before)|;
    PlayedLength(cs, rounds, 0);
    PlayedLength(cs, before, 0);
    forall n | 0 <= n < NBANDS
      ensures At(BandRuns(cs, rounds)[n], k) == if k < size then At(old'[n], k) else At(now[n], k - size)
    {
      BandRunStep(cs, rounds, n);
      PlayedLength(cs, before, n);
    }
    if k < size {
      PlayedIsMixedRuns(cs, before, k);
      MixSame(BandRuns(cs, rounds), old', Mutes(rounds)[k], k, k, NBANDS);
    } else {
      MixSame(BandRuns(cs, rounds), now, last.mute, k, k - size, NBANDS);
    }
  }

  /** The enhanced streams of all bands. */
  ghost function EnhancedBands(rounds: seq<Round>): (bands: seq<seq<Frame>>)
    requires ValidRounds(rounds)
    ensures |bands| == NBANDS
  {
    seq(NBANDS, n requires 0 <= n < NBANDS =>
      EnhancedStream(Stream(BandCalls(rounds, n)), Settings(BandCalls(rounds, n))))
  }

  /**
   * A session that starts from silence: every sample put out is the sum, over the bands not muted at that sample, of
   * the enhanced streams, however the input was cut into blocks.
   */
  lemma PlayedIsMixedStreams(rounds: seq<Round>, k: nat)
    requires ValidRounds(rounds) && k < |Played(seq(NBANDS, _ => Start), rounds)|
    ensures k < |Mutes(rounds)|
    ensures Played(seq(NBANDS, _ => Start), rounds)[k] == Mix(EnhancedBands(rounds), Mutes(rounds)[k], k, NBANDS)
  {
    var cs := seq(NBANDS, _ => Start);
    PlayedIsMixedRuns(cs, rounds, k);
    forall n | 0 <= n < NBANDS ensures BandRuns(cs, rounds)[n] == EnhancedBands(rounds)[n] {
      RunIsEnhancedStream(BandCalls(rounds, n));
    }
    assert BandRuns(cs, rounds) == EnhancedBands(rounds);
  }

  /** do_first_rotation is cleared by band 0, so only band 0 is ever reset. */
  function Effective(first: bool, n: nat, c: Carry): Carry {
    if first && n == 0 then Start else c
  }

  /** What each band really starts a call from. */
  ghost function Starts(first: bool, lasts: seq<Frame>, nexts: seq<Frame>): (cs: seq<Carry>)
    requires |lasts| == |nexts| == NBANDS
    ensures |cs| == NBANDS
  {
    seq(NBANDS, n requires 0 <= n < NBANDS => Effective(first, n, Carry(lasts[n], nexts[n])))
  }

  lemma StartsAre(first: bool, lasts: seq<Frame>, nexts: seq<Frame>)
    requires |lasts| == |nexts| == NBANDS
    ensures Starts(first, lasts, nexts)[0] == if first then Start else Carry(lasts[0], nexts[0])
    ensures forall n :: 0 < n < NBANDS ==> Starts(first, lasts, nexts)[n] == Carry(lasts[n], nexts[n])
  {
  }

  ghost function RoundOf(filter: (nat, seq<Frame>) -> seq<Frame>, input: seq<Frame>,
                         intensity: seq<real>, bypass: seq<bool>, mute: seq<bool>): Round
    requires |intensity| == |bypass| == NBANDS
  {
    Round(seq(NBANDS, n requires 0 <= n < NBANDS => filter(n, input)),
          seq(NBANDS, n requires 0 <= n < NBANDS => Setting(intensity[n], bypass[n])), mute)
  }

  lemma RoundComplete(bands: seq<seq<Frame>>, cs: seq<Carry>, r: Round, out: seq<Frame>)
    requires r.Valid() && |cs| == |bands| == NBANDS && |out| == |r.blocks[0]|
    requires forall n :: 0 <= n < NBANDS ==> bands[n] == BandOut(cs[n], r.blocks[n], r.settings[n])
    requires forall m :: 0 <= m < |out| ==> out[m] == Mix(bands, r.mute, m, NBANDS)
    ensures out == RoundOut(cs, r)
  {
    hide BandOut, Mix;
    assert bands == RoundBands(cs, r);
  }

  /** Every band that is not about to be reset holds silence. */
  ghost predicate Silent(first: bool, lasts: seq<Frame>, nexts: seq<Frame>)
    requires |lasts| == |nexts| == NBANDS
  {
    forall n :: 0 <= n < NBANDS ==> Effective(first, n, Carry(lasts[n], nexts[n])) == Start
  }

  /** out is, sample by sample, the sum of the enhanced streams of the bands not muted then. */
  ghost predicate MixesStreams(out: seq<Frame>, rounds: seq<Round>)
    requires ValidRounds(rounds)
  {
    |out| == |Mutes(rounds)| && forall k :: 0 <= k < |out| ==> out[k] == Mix(EnhancedBands(rounds), Mutes(rounds)[k], k, NBANDS)
  }

  lemma SilentSession(first: bool, lasts: seq<Frame>, nexts: seq<Frame>, rounds: seq<Round>)
    requires |lasts| == |nexts| == NBANDS && Silent(first, lasts, nexts) && ValidRounds(rounds)
    ensures MixesStreams(Played(Starts(first, lasts, nexts), rounds), rounds)
  {
    hide Played, Mix, EnhancedBands, Mutes, Effective;
    var cs := seq(NBANDS, _ => Start);
    assert Starts(first, lasts, nexts) == cs;
    PlayedLength(cs, rounds, 0);
    forall k | 0 <= k < |Played(cs, rounds)|
      ensures Played(cs, rounds)[k] == Mix(EnhancedBands(rounds), Mutes(rounds)[k], k, NBANDS)
    {
      PlayedIsMixedStreams(rounds, k);
    }
  }

  /** The switches of the plugin while a block is processed. */
  datatype Controls = Controls(intensity: seq<real>, bypass: seq<bool>, mute: seq<bool>) {
    predicate Valid() {
      |intensity| == |bypass| == |mute| == NBANDS
    }
  }

  /** The bandpasses during a call: block j of the call, band n, and the block itself give the filtered block. */
  type Filters = (nat, nat, seq<Frame>) -> seq<Frame>

  ghost predicate KeepsBlocks(filter: Filters, b: nat) {
    forall j: nat, n: nat, block: seq<Frame> :: n < NBANDS && |block| == b ==> |filter(j, n, block)| == b
  }

  function FilterOf(filter: Filters, j: nat): (nat, seq<Frame>) -> seq<Frame> {
    (n: nat, block: seq<Frame>) => filter(j, n, block)
  }

  /** The rounds of one call that completes the given blocks. */
  ghost function CallRounds(filter: Filters, blocks: seq<seq<Frame>>, c: Controls): (rounds: seq<Round>)
    requires c.Valid()
    ensures |rounds| == |blocks|
  {
    seq(|blocks|, j requires 0 <= j < |blocks| => RoundOf(FilterOf(filter, j), blocks[j], c.intensity, c.bypass, c.mute))
  }

  lemma CallRoundsLast(filter: Filters, blocks: seq<seq<Frame>>, block: seq<Frame>, c: Controls)
    requires c.Valid()
    ensures CallRounds(filter, blocks + [block], c)
         == CallRounds(filter, blocks, c) + [RoundOf(FilterOf(filter, |blocks|), block, c.intensity, c.bypass, c.mute)]
  {
    hide RoundOf;
  }

  /** A run may be cut anywhere: the carries connect the parts. */
  lemma {:induction false} PlayedResumes(cs: seq<Carry>, rs: seq<Round>, qs: seq<Round>)
    requires |cs| == NBANDS && ValidRounds(rs) && ValidRounds(qs)
    ensures ValidRounds(rs + qs)
    ensures Carries(cs, rs + qs) == Carries(Carries(cs, rs), qs)
    ensures Played(cs, rs + qs) == Played(cs, rs) + Played(Carries(cs, rs), qs)
  {
    if qs == [] {
      assert rs + qs == rs;
      CarriesNone(Carries(cs, rs));
    } else {
      var qs', q := qs[..|qs| - 1], qs[|qs| - 1];
      assert rs + qs == (rs + qs') + [q] && qs == qs' + [q];
      assert ValidRounds(qs') && q.Valid();
      hide Played, Carries, ValidRounds, RoundOut, Round.Valid;
      PlayedResumes(cs, rs, qs');
      PlayedStep(cs, rs + qs', q);
      PlayedStep(Carries(cs, rs), qs', q);
      CarriesLast(cs, rs + qs', q, Carries(cs, rs), qs');
      Regroup(Played(cs, rs), Played(Carries(cs, rs), qs'), RoundOut(Carries(cs, rs + qs'), q));
    }
  }

  lemma Regroup<T>(a: seq<T>, b: seq<T>, c: seq<T>)
    ensures (a + b) + c == a + (b + c)
  {
  }

  lemma CarriesNone(cs: seq<Carry>)
    requires |cs| == NBANDS
    ensures Carries(cs, []) == cs
  {
  }

  /** After a round the carries are those of its blocks, wherever the run started. */
  lemma CarriesLast(cs: seq<Carry>, rs: seq<Round>, r: Round, cs': seq<Carry>, rs': seq<Round>)
    requires |cs| == |cs'| == NBANDS && ValidRounds(rs + [r]) && ValidRounds(rs' + [r])
    ensures Carries(cs, rs + [r]) == Carries(cs', rs' + [r])
  {
    forall n | 0 <= n < NBANDS ensures Carries(cs, rs + [r])[n] == Carries(cs', rs' + [r])[n] {
      assert BandCalls(rs + [r], n)[|rs|].block == r.blocks[n] && BandCalls(rs' + [r], n)[|rs'|].block == r.blocks[n];
    }
  }

  /** The rounds of the first n calls of a session: each call completes the blocks that end in its input. */
  ghost function SessionRounds(data: seq<Frame>, filters: seq<Filters>, inputs: seq<seq<Frame>>, controls: seq<Controls>,
                               b: nat, n: nat): seq<Round>
    requires b > 0 && n <= |filters| == |inputs| == |controls| && ValidControls(controls)
  {
    if n == 0 then []
    else
      SessionRounds(data, filters, inputs, controls, b, n - 1)
        + CallRounds(filters[n - 1], Frames(Rest(data + Flatten(inputs[..n - 1]), b) + inputs[n - 1], b), controls[n - 1])
  }

  ghost predicate ValidControls(controls: seq<Controls>) {
    forall i :: 0 <= i < |controls| ==> controls[i].Valid()
  }

  /** The blocks that a session enhances, call by call. */
  ghost function SessionBlocks(data: seq<Frame>, inputs: seq<seq<Frame>>, b: nat): seq<seq<Frame>>
    requires b > 0
  {
    if inputs == [] then []
    else
      var n := |inputs| - 1;
      SessionBlocks(data, inputs[..n], b) + Frames(Rest(data + Flatten(inputs[..n]), b) + inputs[n], b)
  }

  /** They are the blocks of the whole stream, however it was cut into calls. */
  lemma {:induction false} SessionBlocksAreFrames(data: seq<Frame>, inputs: seq<seq<Frame>>, b: nat)
    requires |data| < b
    ensures SessionBlocks(data, inputs, b) == Frames(data + Flatten(inputs), b)
  {
    if inputs == [] {
      assert data + [] == data;
    } else {
      var n := |inputs| - 1;
      SessionBlocksAreFrames(data, inputs[..n], b);
      FramesResume(data + Flatten(inputs[..n]), inputs[n], b);
      assert data + Flatten(inputs) == (data + Flatten(inputs[..n])) + inputs[n];
    }
  }

  lemma PlayedNone(cs: seq<Carry>)
    requires |cs| == NBANDS
    ensures Played(cs, []) == []
  {
  }

  lemma PlayedSomething(cs: seq<Carry>, rounds: seq<Round>)
    requires |cs| == NBANDS && ValidRounds(rounds) && |rounds| > 0
    ensures |Played(cs, rounds)| > 0
  {
    hide RoundOut, Carries;
  }

  lemma KeepsBlock(filter: Filters, j: nat, block: seq<Frame>, b: nat)
    requires KeepsBlocks(filter, b) && |block| == b
    ensures forall n: nat :: n < NBANDS ==> |FilterOf(filter, j)(n, block)| == b
  {
  }

  lemma WholeBlock(data: seq<Frame>, input: seq<Frame>, b: nat)
    requires data == [] && |input| == b > 0
    ensures Frames(data + input, b) == [input] && Rest(data + input, b) == []
  {
    assert data + input == input && input[..b] == input && input[b..] == [];
    assert Frames(input[b..], b) == [];
  }

  lemma SomeBlock(data: seq<Frame>, input: seq<Frame>, b: nat)
    requires |input| >= b > 0
    ensures |Frames(data + input, b)| > 0
  {
  }

  lemma SessionStep(data: seq<Frame>, filters: seq<Filters>, inputs: seq<seq<Frame>>, controls: seq<Controls>, b: nat, i: nat)
    requires b > 0 && |filters| == |inputs| == |controls| && ValidControls(controls) && i < |inputs|
    ensures var u := Rest(data + Flatten(inputs[..i]), b) + inputs[i];
            && Rest(data + Flatten(inputs[..i + 1]), b) == Rest(u, b)
            && SessionRounds(data, filters, inputs, controls, b, i + 1)
                 == SessionRounds(data, filters, inputs, controls, b, i) + CallRounds(filters[i], Frames(u, b), controls[i])
  {
    hide CallRounds;
    assert inputs[..i + 1][..i] == inputs[..i];
    assert data + Flatten(inputs[..i + 1]) == (data + Flatten(inputs[..i])) + inputs[i];
    FramesResume(data + Flatten(inputs[..i]), inputs[i], b);
  }

  /** Each output is zeros followed by what was taken from the queue for it. */
  ghost predicate Padded(outs: seq<seq<Frame>>, taken: seq<seq<Frame>>, n: nat) {
    |outs| == |taken| && forall i :: 0 <= i < |outs| ==> |taken[i]| <= n && outs[i] == Quiet(n - |taken[i]|) + taken[i]
  }

  lemma PaddedMore(outs: seq<seq<Frame>>, taken: seq<seq<Frame>>, n: nat, out: seq<Frame>, now: seq<Frame>)
    requires Padded(outs, taken, n) && |now| <= n && out == Quiet(n - |now|) + now
    ensures Padded(outs + [out], taken + [now], n)
  {
    hide Quiet;
  }

  lemma SessionAdvance(cs: seq<Carry>, rounds: seq<Round>, more: seq<Round>, taken: seq<seq<Frame>>, now: seq<Frame>,
                       first: seq<Frame>, queued: seq<Frame>, queue: seq<Frame>)
    requires |cs| == NBANDS && ValidRounds(rounds) && ValidRounds(more)
    requires Flatten(taken) + queued == first + Played(cs, rounds) && now + queue == queued + Played(Carries(cs, rounds), more)
    ensures ValidRounds(rounds + more) && Carries(cs, rounds + more) == Carries(Carries(cs, rounds), more)
    ensures Flatten(taken + [now]) + queue == first + Played(cs, rounds + more)
  {
    hide Played, Carries, Flatten, ValidRounds;
    PlayedResumes(cs, rounds, more);
    TakenMore(Flatten(taken), now, queue, queued, first + Played(cs, rounds), Played(Carries(cs, rounds), more));
    Regroup(first, Played(cs, rounds), Played(Carries(cs, rounds), more));
    FlattenSnoc(taken, now);
  }

  lemma TakenMore(came: seq<Frame>, now: seq<Frame>, queue: seq<Frame>, queued: seq<Frame>, x: seq<Frame>, y: seq<Frame>)
    requires came + queued == x && now + queue == queued + y
    ensures (came + now) + queue == x + y
  {
    assert (came + now) + queue == came + (now + queue);
    assert came + (queued + y) == (came + queued) + y;
  }

  lemma FlattenSnoc(fs: seq<seq<Frame>>, f: seq<Frame>)
    ensures Flatten(fs + [f]) == Flatten(fs) + f
  {
    assert (fs + [f])[..|fs|] == fs;
  }

  function Quiet(n: nat): (q: seq<Frame>)
    ensures |q| == n
  {
    seq(n, _ => Silence)
  }

  /** After a call every band stands where the run of its calls leaves it. */
  lemma CarriesStep(cs: seq<Carry>, rounds: seq<Round>, r: Round, lasts: seq<Frame>, nexts: seq<Frame>)
    requires ValidRounds(rounds) && r.Valid() && |cs| == |lasts| == |nexts| == NBANDS
    requires forall n :: 0 <= n < NBANDS ==> Carry(lasts[n], nexts[n]) == BandCarry(r.blocks[n])
    ensures ValidRounds(rounds + [r]) && Starts(false, lasts, nexts) == Carries(cs, rounds + [r])
  {
    assert ValidRounds(rounds + [r]);
    forall n | 0 <= n < NBANDS ensures Starts(false, lasts, nexts)[n] == Carries(cs, rounds + [r])[n] {
      assert BandCalls(rounds + [r], n)[|rounds|] == Call(r.blocks[n], r.settings[n]);
    }
  }

  lemma PlayedStep(cs: seq<Carry>, rounds: seq<Round>, r: Round)
    requires ValidRounds(rounds) && r.Valid() && |cs| == NBANDS
    ensures ValidRounds(rounds + [r]) && Played(cs, rounds + [r]) == Played(cs, rounds) + RoundOut(Carries(cs, rounds), r)
  {
    hide RoundOut, Carries;
    assert (rounds + [r])[..|rounds|] == rounds;
  }

  /** n & (n - 1) == 0, for a positive n. */
  predicate PowerOfTwo(n: nat) {
    n == 1 || (n > 0 && n % 2 == 0 && PowerOfTwo(n / 2))
  }

  function Power(k: nat): nat {
    if k == 0 then 1 else 2 * Power(k - 1)
  }

  lemma {:induction false} PowerOfTwoIs(n: nat)
    ensures PowerOfTwo(n) <==> exists k: nat :: n == Power(k)
  {
    if PowerOfTwo(n) {
      if n == 1 {
        assert n == Power(0);
      } else {
        PowerOfTwoIs(n / 2);
        var k: nat :| n / 2 == Power(k);
        assert n == Power(k + 1);
      }
    }
    if k: nat :| n == Power(k) { PowersAre(k); }
  }

  lemma {:induction false} PowersAre(k: nat)
    ensures Power(k) > 0 && PowerOfTwo(Power(k))
  {
    if k > 0 {
      PowersAre(k - 1);
      Doubled(Power(k - 1));
    }
  }

  lemma Doubled(p: nat)
    requires p > 0 && PowerOfTwo(p)
    ensures PowerOfTwo(2 * p)
  {
    assert (2 * p) / 2 == p;
  }

  class Plugin {
    var blocksize: nat
    var doFirstRotation: bool
    var bandMute: seq<bool>
    var bandBypass: seq<bool>
    var bandIntensity: seq<real>
    var bandLast: seq<Frame>
    var bandNext: seq<Frame>
    var bandData: seq<seq<Frame>>
    var nSamples: nat
    var nSamplesIsPowerOf2: bool
    var data: seq<Frame>
    var queue: seq<Frame>

    ghost predicate Valid()
      reads this
    {
      |bandMute| == |bandBypass| == |bandIntensity| == |bandLast| == |bandNext| == |bandData| == NBANDS
    }

    /** What setup leaves for calls of at least two samples, and every call keeps. */
    ghost predicate Ready()
      reads this
    {
      && Valid() && 2 <= blocksize <= nSamples && nSamplesIsPowerOf2 == (blocksize == nSamples)
      && |data| < blocksize && (blocksize == nSamples ==> data == queue == [])
    }

    ghost function CarryOf(n: nat): Carry
      requires Valid() && n < NBANDS
      reads this
    {
      Carry(bandLast[n], bandNext[n])
    }

    function SettingOf(n: nat): Setting
      requires |bandIntensity| == |bandBypass| == NBANDS && n < NBANDS
      reads this
    {
      Setting(bandIntensity[n], bandBypass[n])
    }

    /** band_next is not among the fields the constructor fills: memory is whatever it holds then. */
    constructor (memory: seq<Frame>)
      requires |memory| == NBANDS
      ensures Valid() && doFirstRotation
      ensures forall n :: 0 <= n < NBANDS ==> CarryOf(n) == Carry(Silence, memory[n])
      ensures forall n :: 0 <= n < NBANDS ==> !bandMute[n] && SettingOf(n) == Setting(1.0, false)
    {
      blocksize, doFirstRotation := 512, true;
      bandMute, bandBypass := seq(NBANDS, _ => false), seq(NBANDS, _ => false);
      bandIntensity := seq(NBANDS, _ => 1.0);
      bandLast, bandNext := seq(NBANDS, _ => Silence), memory;
      bandData := seq(NBANDS, _ => []);
      nSamples, nSamplesIsPowerOf2, data, queue := 0, true, [], [];
    }

    /**
     * setup, for a stream of calls with n_samples samples each: blocks of the largest power of two that fits, the
     * flag set again, and the carries left as they are.
     */
    method Setup(samples: nat)
      requires Valid()
      modifies this`blocksize, this`doFirstRotation, this`bandData, this`nSamples, this`nSamplesIsPowerOf2, this`data, this`queue
      ensures Valid() && doFirstRotation && nSamples == samples && data == queue == []
      ensures samples >= 2 ==> Ready()
      ensures blocksize <= samples && (PowerOfTwo(blocksize) <==> samples > 0)
      ensures forall p :: blocksize < p <= samples ==> !PowerOfTwo(p)
      ensures forall n :: 0 <= n < NBANDS ==> CarryOf(n) == old(CarryOf(n)) && |bandData[n]| == blocksize
    {
      var size := samples;
      while !PowerOfTwo(size) && size > 2
        invariant size <= samples && (samples >= 2 ==> size >= 2) && (samples < 2 ==> size == samples)
        invariant forall p :: size < p <= samples ==> !PowerOfTwo(p)
      {
        size := size - 1;
      }
      assert PowerOfTwo(2) by { assert PowerOfTwo(1); }
      blocksize, doFirstRotation := size, true;
      nSamples, nSamplesIsPowerOf2, data, queue := samples, PowerOfTwo(samples), [], [];
      bandData := seq(NBANDS, _ => seq(size, _ => Silence));
    }

    /**
     * One block. filter(n, data) is what the bandpass of band n makes of this block. Every band takes one step of
     * the stream it belongs to, and the block becomes the sum of the bands that are not muted.
     */
    method EnhancePeaks(data: array<Frame>, filter: (nat, seq<Frame>) -> seq<Frame>)
      requires Valid() && data.Length == blocksize >= 2
      requires forall n: nat :: n < NBANDS ==> |filter(n, data[..])| == blocksize
      modifies this`doFirstRotation, this`bandLast, this`bandNext, this`bandData, data
      ensures Valid() && !doFirstRotation
      ensures forall n: nat :: n < NBANDS ==> CarryOf(n) == BandCarry(filter(n, old(data[..])))
      ensures bandData[0] == BandOut(if old(doFirstRotation) then Start else old(CarryOf(0)), filter(0, old(data[..])), SettingOf(0))
      ensures forall n: nat :: 0 < n < NBANDS ==> bandData[n] == BandOut(old(CarryOf(n)), filter(n, old(data[..])), SettingOf(n))
      ensures forall m :: 0 <= m < blocksize ==> data[m] == Mix(bandData, bandMute, m, NBANDS)
      ensures var r := RoundOf(filter, old(data[..]), bandIntensity, bandBypass, bandMute);
              r.Valid() && data[..] == RoundOut(Starts(old(doFirstRotation), old(bandLast), old(bandNext)), r)
    {
      ghost var input := data[..];
      hide BandOut, Delayed, Mix, Effective, RoundOut;
      ghost var eff := Starts(doFirstRotation, bandLast, bandNext);
      StartsAre(doFirstRotation, bandLast, bandNext);
      ghost var r := RoundOf(filter, input, bandIntensity, bandBypass, bandMute);
      Split(data[..], filter, eff);
      EnhanceBands(eff, r.blocks);
      AddBands(data);
      RoundComplete(bandData, eff, r, data[..]);
    }

    /** One block under the switches as they stand: copied and enhanced. */
    method EnhanceBlock(input: seq<Frame>, filter: (nat, seq<Frame>) -> seq<Frame>, c: Controls) returns (out: seq<Frame>)
      requires Valid() && |input| == blocksize >= 2 && c.Valid()
      requires forall n: nat :: n < NBANDS ==> |filter(n, input)| == blocksize
      modifies this`doFirstRotation, this`bandLast, this`bandNext, this`bandData, this`bandMute, this`bandBypass, this`bandIntensity
      ensures Valid() && !doFirstRotation && |out| == blocksize
      ensures var r := RoundOf(filter, input, c.intensity, c.bypass, c.mute);
              r.Valid() && out == RoundOut(Starts(old(doFirstRotation), old(bandLast), old(bandNext)), r)
              && forall n :: 0 <= n < NBANDS ==> Carry(bandLast[n], bandNext[n]) == BandCarry(r.blocks[n])
    {
      hide RoundOut, Starts, BandOut, BandCarry, Mix, Effective;
      bandIntensity, bandBypass, bandMute := c.intensity, c.bypass, c.mute;
      var data := new Frame[blocksize](m requires 0 <= m < |input| => input[m]);
      assert data[..] == input;
      EnhancePeaks(data, filter);
      out := data[..];
      forall n: nat | n < NBANDS ensures Carry(bandLast[n], bandNext[n]) == BandCarry(filter(n, input)) {
        assert CarryOf(n) == BandCarry(filter(n, input));
      }
    }

    /** A full buffer is enhanced, queued and emptied. */
    method QueueBlock(filter: (nat, seq<Frame>) -> seq<Frame>, c: Controls,
                      ghost cs: seq<Carry>, ghost rounds: seq<Round>, ghost queued: seq<Frame>)
      returns (ghost rounds': seq<Round>)
      requires Valid() && |data| == blocksize >= 2 && c.Valid() && |cs| == NBANDS && ValidRounds(rounds)
      requires forall n: nat :: n < NBANDS ==> |filter(n, data)| == blocksize
      requires Starts(doFirstRotation, bandLast, bandNext) == Carries(cs, rounds) && queue == queued + Played(cs, rounds)
      modifies this`doFirstRotation, this`bandLast, this`bandNext, this`bandData, this`bandMute, this`bandBypass
      modifies this`bandIntensity, this`data, this`queue
      ensures Valid() && data == []
      ensures rounds' == rounds + [RoundOf(filter, old(data), c.intensity, c.bypass, c.mute)] && ValidRounds(rounds')
      ensures Starts(doFirstRotation, bandLast, bandNext) == Carries(cs, rounds') && queue == queued + Played(cs, rounds')
    {
      hide Played, RoundOut, Carries, Starts, BandCarry, RoundOf;
      ghost var r := RoundOf(filter, data, c.intensity, c.bypass, c.mute);
      var block := EnhanceBlock(data, filter, c);
      CarriesStep(cs, rounds, r, bandLast, bandNext);
      PlayedStep(cs, rounds, r);
      Regroup(queued, Played(cs, rounds), block);
      rounds' := rounds + [r];
      queue, data := queue + block, [];
      assert Starts(doFirstRotation, bandLast, bandNext) == Starts(false, bandLast, bandNext);
    }

    /** The state after a call has been fed the samples fed, of which the complete blocks have been queued. */
    ghost predicate Pushed(filter: Filters, c: Controls, cs: seq<Carry>, queued: seq<Frame>, fed: seq<Frame>)
      reads this
    {
      && Valid() && blocksize >= 2 && c.Valid() && |cs| == NBANDS && data == Rest(fed, blocksize)
      && var rounds := CallRounds(filter, Frames(fed, blocksize), c);
         ValidRounds(rounds) && queue == queued + Played(cs, rounds)
         && Starts(doFirstRotation, bandLast, bandNext) == Carries(cs, rounds)
    }

    /** One sample; j is the number of blocks completed so far in this call. */
    method PushSample(x: Frame, filter: Filters, j: nat, c: Controls,
                      ghost cs: seq<Carry>, ghost queued: seq<Frame>, ghost fed: seq<Frame>)
      returns (j': nat)
      requires Pushed(filter, c, cs, queued, fed) && KeepsBlocks(filter, blocksize) && j == |Frames(fed, blocksize)|
      modifies this`doFirstRotation, this`bandLast, this`bandNext, this`bandData, this`bandMute, this`bandBypass
      modifies this`bandIntensity, this`data, this`queue
      ensures Pushed(filter, c, cs, queued, fed + [x]) && j' == |Frames(fed + [x], blocksize)|
    {
      hide Played, Carries, Starts, Frames, Rest, KeepsBlocks, RoundOf, FilterOf, CallRounds, ValidRounds;
      FramesPush(fed, x, blocksize);
      data, j' := data + [x], j;
      if |data| == blocksize {
        KeepsBlock(filter, j, data, blocksize);
        CallRoundsLast(filter, Frames(fed, blocksize), data, c);
        ghost var rounds := QueueBlock(FilterOf(filter, j), c, cs, CallRounds(filter, Frames(fed, blocksize), c), queued);
        j' := j + 1;
      }
    }

    /** The samples are collected, and every full block is enhanced and queued. */
    method Push(input: seq<Frame>, filter: Filters, c: Controls)
      requires Valid() && blocksize >= 2 && |data| < blocksize && c.Valid() && KeepsBlocks(filter, blocksize)
      modifies this`doFirstRotation, this`bandLast, this`bandNext, this`bandData, this`bandMute, this`bandBypass
      modifies this`bandIntensity, this`data, this`queue
      ensures Pushed(filter, c, Starts(old(doFirstRotation), old(bandLast), old(bandNext)), old(queue), old(data) + input)
    {
      ghost var start, queued, cs := data, queue, Starts(doFirstRotation, bandLast, bandNext);
      assert start + input[..0] == start && Frames(start, blocksize) == [] && CallRounds(filter, [], c) == [];
      CarriesNone(cs);
      PlayedNone(cs);
      var j := 0;
      for i := 0 to |input|
        invariant Pushed(filter, c, cs, queued, start + input[..i]) && j == |Frames(start + input[..i], blocksize)|
      {
        hide Pushed, Frames, Starts;
        assert start + input[..i + 1] == (start + input[..i]) + [input[i]];
        j := PushSample(input[i], filter, j, c, cs, queued, start + input[..i]);
      }
      assert input[..|input|] == input;
    }

    /** The output takes what the queue has, behind twice as many zeros as samples are missing; an empty queue writes nothing. */
    method Drain(out: array<Frame>) returns (ghost taken: seq<Frame>)
      modifies this`queue, out
      ensures old(queue) == taken + queue
      ensures |old(queue)| > 0 || out.Length == 0 ==> |taken| <= out.Length && out[..] == Quiet(out.Length - |taken|) + taken
      ensures |taken| == if |old(queue)| >= out.Length then out.Length else Max(0, 2 * |old(queue)| - out.Length)
    {
      taken := [];
      if |queue| >= out.Length {
        for n := 0 to out.Length
          invariant old(queue) == taken + queue && |taken| == n && out[..n] == taken
        {
          out[n] := queue[0];
          taken := taken + [queue[0]];
          queue := queue[1..];
        }
      } else {
        var offset := 2 * (out.Length - |queue|);
        ghost var zeros := Min(offset, out.Length);
        var n := 0;
        while |queue| > 0 && n < out.Length
          invariant n <= out.Length && old(queue) == taken + queue
          invariant |taken| == (if n <= offset then 0 else n - offset)
          invariant forall k :: 0 <= k < n ==> out[k] == if k < offset then Silence else taken[k - offset]
        {
          if n < offset {
            out[n] := Silence;
          } else {
            out[n] := queue[0];
            taken := taken + [queue[0]];
            queue := queue[1..];
          }
          n := n + 1;
        }
        if |old(queue)| > 0 {
          assert n == out.Length;
          assert out[..] == Quiet(zeros) + taken;
        }
      }
    }

    /**
     * process. Nothing that was enhanced is lost, repeated or reordered: what goes out, behind zeros, followed by what stays
     * in the queue is what was queued followed by what the blocks completed by this call play.
     */
    method Process(input: seq<Frame>, out: array<Frame>, filter: Filters, c: Controls) returns (ghost taken: seq<Frame>)
      requires Ready() && |input| == out.Length == nSamples && c.Valid() && KeepsBlocks(filter, blocksize)
      modifies this`doFirstRotation, this`bandLast, this`bandNext, this`bandData, this`bandMute, this`bandBypass
      modifies this`bandIntensity, this`data, this`queue, out
      ensures Ready()
      ensures var rounds := CallRounds(filter, Frames(old(data) + input, blocksize), c);
              var cs := Starts(old(doFirstRotation), old(bandLast), old(bandNext));
              && ValidRounds(rounds) && data == Rest(old(data) + input, blocksize)
              && taken + queue == old(queue) + Played(cs, rounds)
              && Starts(doFirstRotation, bandLast, bandNext) == Carries(cs, rounds)
      ensures |taken| <= nSamples && out[..] == Quiet(nSamples - |taken|) + taken
    {
      hide Played, RoundOut, Carries, Starts, BandCarry, RoundOf, FilterOf, KeepsBlocks;
      if nSamplesIsPowerOf2 && blocksize == nSamples {
        ghost var cs := Starts(doFirstRotation, bandLast, bandNext);
        WholeBlock(data, input, blocksize);
        KeepsBlock(filter, 0, input, blocksize);
        var block := EnhanceBlock(input, FilterOf(filter, 0), c);
        forall k | 0 <= k < out.Length { out[k] := block[k]; }
        taken := block;
        ghost var r := RoundOf(FilterOf(filter, 0), input, c.intensity, c.bypass, c.mute);
        CallRoundsLast(filter, [], input, c);
        assert [] + [input] == [input] && CallRounds(filter, [], c) == [] && [] + [r] == [r];
        CarriesNone(cs);
        PlayedNone(cs);
        CarriesStep(cs, [], r, bandLast, bandNext);
        PlayedStep(cs, [], r);
        assert out[..] == Quiet(0) + taken;
      } else {
        SomeBlock(data, input, blocksize);
        ghost var queued := queue;
        Push(input, filter, c);
        PlayedSomething(Starts(old(doFirstRotation), old(bandLast), old(bandNext)),
                        CallRounds(filter, Frames(old(data) + input, blocksize), c));
        taken := Drain(out);
      }
    }

    /** One more call of a session. */
    method ProcessNext(input: seq<Frame>, filter: Filters, c: Controls,
                       ghost cs: seq<Carry>, ghost rounds: seq<Round>, ghost first: seq<Frame>, ghost taken: seq<seq<Frame>>)
      returns (out: seq<Frame>, ghost now: seq<Frame>, ghost rounds': seq<Round>)
      requires Ready() && |input| == nSamples && c.Valid() && KeepsBlocks(filter, blocksize)
      requires |cs| == NBANDS && ValidRounds(rounds) && Starts(doFirstRotation, bandLast, bandNext) == Carries(cs, rounds)
      requires Flatten(taken) + queue == first + Played(cs, rounds)
      modifies this`doFirstRotation, this`bandLast, this`bandNext, this`bandData, this`bandMute, this`bandBypass
      modifies this`bandIntensity, this`data, this`queue
      ensures Ready() && data == Rest(old(data) + input, blocksize)
      ensures rounds' == rounds + CallRounds(filter, Frames(old(data) + input, blocksize), c) && ValidRounds(rounds')
      ensures Starts(doFirstRotation, bandLast, bandNext) == Carries(cs, rounds')
      ensures Flatten(taken + [now]) + queue == first + Played(cs, rounds')
      ensures |now| <= nSamples && out == Quiet(nSamples - |now|) + now
    {
      hide Played, Carries, Starts, Rest, Frames, CallRounds, KeepsBlocks, Flatten, ValidRounds, Quiet;
      ghost var queued, more := queue, CallRounds(filter, Frames(data + input, blocksize), c);
      var buffer := new Frame[nSamples](_ => Silence);
      now := Process(input, buffer, filter, c);
      out := buffer[..];
      SessionAdvance(cs, rounds, more, taken, now, first, queued, queue);
      rounds' := rounds + more;
    }

    /**
     * A session of calls of any fixed size from two samples up, with switches changing between calls: what came out of all
     * calls, leaving their leading zeros aside, followed by what is still queued, is what the blocks of the stream play
     * from the carries the bands start with; from silence, that is the sum of the enhanced streams.
     */
    method Session(inputs: seq<seq<Frame>>, filters: seq<Filters>, controls: seq<Controls>)
      returns (outs: seq<seq<Frame>>, ghost taken: seq<seq<Frame>>)
      requires Ready() && |filters| == |inputs| == |controls|
      requires ValidControls(controls) && forall i :: 0 <= i < |inputs| ==> |inputs[i]| == nSamples
      requires forall i :: 0 <= i < |filters| ==> KeepsBlocks(filters[i], blocksize)
      modifies this`doFirstRotation, this`bandLast, this`bandNext, this`bandData, this`bandMute, this`bandBypass
      modifies this`bandIntensity, this`data, this`queue
      ensures Ready() && |outs| == |taken| == |inputs|
      ensures Padded(outs, taken, nSamples)
      ensures data == Rest(old(data) + Flatten(inputs), blocksize)
      ensures var rounds := SessionRounds(old(data), filters, inputs, controls, blocksize, |inputs|);
              && ValidRounds(rounds)
              && Flatten(taken) + queue == old(queue) + Played(Starts(old(doFirstRotation), old(bandLast), old(bandNext)), rounds)
              && (old(Silent(doFirstRotation, bandLast, bandNext) && queue == []) ==>
                    MixesStreams(Flatten(taken) + queue, rounds))
    {
      ghost var start, first, cs := data, queue, Starts(doFirstRotation, bandLast, bandNext);
      CarriesNone(cs);
      PlayedNone(cs);
      assert start + [] == start && inputs[..0] == [] && Rest(start, blocksize) == start;
      outs, taken := [], [];
      for i := 0 to |inputs|
        invariant |outs| == |taken| == i && Padded(outs, taken, nSamples) && Ready()
        invariant InSession(start, first, cs, filters, inputs, controls, taken, i)
      {
        hide Padded, Ready, InSession, KeepsBlocks;
        ghost var now;
        var out;
        out, now := SessionCall(start, first, cs, filters, inputs, controls, taken, i);
        PaddedMore(outs, taken, nSamples, out, now);
        outs, taken := outs + [out], taken + [now];
      }
      hide Played, Carries, Starts, Rest, Silent, MixesStreams, Padded, Flatten, ValidRounds, Ready, KeepsBlocks;
      assert inputs[..|inputs|] == inputs;
      if old(Silent(doFirstRotation, bandLast, bandNext) && queue == []) {
        assert [] + Played(cs, SessionRounds(start, filters, inputs, controls, blocksize, |inputs|))
            == Played(cs, SessionRounds(start, filters, inputs, controls, blocksize, |inputs|));
        SilentSession(old(doFirstRotation), old(bandLast), old(bandNext),
                      SessionRounds(start, filters, inputs, controls, blocksize, |inputs|));
      }
    }

    /** Where a session stands after i calls. */
    ghost predicate InSession(start: seq<Frame>, first: seq<Frame>, cs: seq<Carry>, filters: seq<Filters>, inputs: seq<seq<Frame>>,
                              controls: seq<Controls>, taken: seq<seq<Frame>>, i: nat)
      reads this
    {
      && i <= |filters| == |inputs| == |controls| && ValidControls(controls) && Valid() && blocksize >= 2 && |cs| == NBANDS
      && data == Rest(start + Flatten(inputs[..i]), blocksize)
      && var rounds := SessionRounds(start, filters, inputs, controls, blocksize, i);
         ValidRounds(rounds) && Flatten(taken) + queue == first + Played(cs, rounds)
         && Starts(doFirstRotation, bandLast, bandNext) == Carries(cs, rounds)
    }

    method SessionCall(ghost start: seq<Frame>, ghost first: seq<Frame>, ghost cs: seq<Carry>, filters: seq<Filters>, inputs: seq<seq<Frame>>,
                       controls: seq<Controls>, ghost taken: seq<seq<Frame>>, i: nat)
      returns (out: seq<Frame>, ghost now: seq<Frame>)
      requires Ready() && InSession(start, first, cs, filters, inputs, controls, taken, i)
      requires i < |inputs| && |inputs[i]| == nSamples && KeepsBlocks(filters[i], blocksize)
      modifies this`doFirstRotation, this`bandLast, this`bandNext, this`bandData, this`bandMute, this`bandBypass
      modifies this`bandIntensity, this`data, this`queue
      ensures Ready() && InSession(start, first, cs, filters, inputs, controls, taken + [now], i + 1)
      ensures |now| <= nSamples && out == Quiet(nSamples - |now|) + now
    {
      hide Played, Carries, Starts, Rest, Frames, CallRounds, KeepsBlocks, Flatten, ValidRounds, Quiet, SessionRounds;
      SessionStep(start, filters, inputs, controls, blocksize, i);
      ghost var rounds;
      out, now, rounds := ProcessNext(inputs[i], filters[i], controls[i], cs,
                                      SessionRounds(start, filters, inputs, controls, blocksize, i), first, taken);
    }

    /** First loop: filter, rotate by one sample, and exchange the newest sample with the one kept last time. */
    method Split(input: seq<Frame>, filter: (nat, seq<Frame>) -> seq<Frame>, ghost eff: seq<Carry>)
      requires Valid() && |input| == blocksize >= 2 && |eff| == NBANDS
      requires forall n: nat :: n < NBANDS ==> |filter(n, input)| == blocksize
      requires forall n :: 0 <= n < NBANDS ==> eff[n] == Effective(doFirstRotation, n, CarryOf(n))
      modifies this`doFirstRotation, this`bandLast, this`bandNext, this`bandData
      ensures Valid() && !doFirstRotation
      ensures forall n :: 0 <= n < NBANDS ==> bandNext[n] == filter(n, input)[blocksize - 1]
      ensures forall n :: 0 <= n < NBANDS ==> bandData[n] == Delayed(eff[n], filter(n, input))
      ensures forall n :: 0 <= n < NBANDS ==> bandLast[n] == eff[n].last
    {
      for n := 0 to NBANDS
        invariant Valid() && doFirstRotation == (n == 0 && old(doFirstRotation))
        invariant forall j :: 0 <= j < n ==> bandNext[j] == filter(j, input)[blocksize - 1]
        invariant forall j :: 0 <= j < n ==> bandData[j] == Delayed(eff[j], filter(j, input))
        invariant forall j :: 0 <= j < n ==> bandLast[j] == eff[j].last
        invariant forall j :: n <= j < NBANDS ==> bandNext[j] == old(bandNext)[j] && bandLast[j] == old(bandLast)[j]
      {
        var block := filter(n, input);
        var rotated := [block[blocksize - 1]] + block[..blocksize - 1];
        if doFirstRotation {
          bandNext := bandNext[n := rotated[0]];
          bandLast := bandLast[n := Silence];
          rotated := rotated[0 := Silence];
          doFirstRotation := false;
        } else {
          var newest := rotated[0];
          rotated := rotated[0 := bandNext[n]];
          bandNext := bandNext[n := newest];
        }
        bandData := bandData[n := rotated];
      }
    }

    /** Second loop: every band is enhanced in place and keeps its newest delayed sample. */
    method EnhanceBands(ghost eff: seq<Carry>, ghost blocks: seq<seq<Frame>>)
      requires Valid() && blocksize >= 2 && |eff| == |blocks| == NBANDS
      requires forall n :: 0 <= n < NBANDS ==> |blocks[n]| == blocksize
      requires forall n :: 0 <= n < NBANDS ==> bandNext[n] == blocks[n][blocksize - 1]
      requires forall n :: 0 <= n < NBANDS ==> bandData[n] == Delayed(eff[n], blocks[n])
      requires forall n :: 0 <= n < NBANDS ==> bandLast[n] == eff[n].last
      modifies this`bandLast, this`bandData
      ensures Valid()
      ensures forall n :: 0 <= n < NBANDS ==> bandData[n] == BandOut(eff[n], blocks[n], SettingOf(n))
      ensures forall n :: 0 <= n < NBANDS ==> bandLast[n] == blocks[n][blocksize - 2]
    {
      hide BandOut, Delayed;
      for n := 0 to NBANDS
        invariant Valid()
        invariant forall j :: 0 <= j < n ==> bandData[j] == BandOut(eff[j], blocks[j], SettingOf(j))
        invariant forall j :: 0 <= j < n ==> bandLast[j] == blocks[j][blocksize - 2]
        invariant forall j :: n <= j < NBANDS ==> bandData[j] == Delayed(eff[j], blocks[j])
        invariant forall j :: n <= j < NBANDS ==> bandLast[j] == eff[j].last
      {
        var out, last := EnhanceBand(bandData[n], bandLast[n], bandNext[n], SettingOf(n), eff[n], blocks[n]);
        bandData := bandData[n := out];
        bandLast := bandLast[n := last];
      }
    }

    /** Last loop: the block becomes the sum of the bands. */
    method AddBands(data: array<Frame>)
      requires Valid() && data.Length == blocksize && forall n :: 0 <= n < NBANDS ==> |bandData[n]| == blocksize
      modifies data
      ensures forall m :: 0 <= m < blocksize ==> data[m] == Mix(bandData, bandMute, m, NBANDS)
    {
      for m := 0 to blocksize
        invariant forall k :: 0 <= k < m ==> data[k] == Mix(bandData, bandMute, k, NBANDS)
      {
        data[m] := Silence;
        for n := 0 to NBANDS
          invariant forall k :: 0 <= k < m ==> data[k] == Mix(bandData, bandMute, k, NBANDS)
          invariant data[m] == Mix(bandData, bandMute, m, n)
        {
          if !bandMute[n] {
            data[m] := Add(data[m], bandData[n][m]);
          }
        }
      }
    }
  }

  /** Second loop, one band: bypass it, or subtract intensity times its second difference. */
  method EnhanceBand(d: seq<Frame>, last: Frame, next: Frame, s: Setting, ghost c: Carry, ghost block: seq<Frame>)
    returns (out: seq<Frame>, last': Frame)
    requires |block| >= 2 && d == Delayed(c, block) && last == c.last && next == block[|block| - 1]
    ensures out == BandOut(c, block, s) && last' == block[|block| - 2]
  {
    hide Sharpen, SecondDifference, CurvatureAt;
    if !s.bypass {
      var d2 := SecondDerivative(d, last, next);
      out, last' := SharpenBand(d, d2, s.intensity);
      assert forall m :: 0 <= m < |d| ==> out[m] == BandSample(c, block, s, m);
    } else {
      out, last' := d, d[|d| - 1];
      assert forall m :: 0 <= m < |d| ==> out[m] == BandSample(c, block, s, m);
    }
  }

  method SecondDerivative(d: seq<Frame>, last: Frame, next: Frame) returns (d2: seq<Frame>)
    requires |d| >= 2
    ensures |d2| == |d|
    ensures forall m :: 0 <= m < |d| ==> d2[m] == CurvatureAt(d, last, next, m)
  {
    d2 := d;
    for m := 0 to |d|
      invariant |d2| == |d|
      invariant forall k :: 0 <= k < m ==> d2[k] == CurvatureAt(d, last, next, k)
    {
      if m > 0 && m < |d| - 1 {
        d2 := d2[m := SecondDifference(d[m - 1], d[m], d[m + 1])];
      } else if m == 0 {
        d2 := d2[m := SecondDifference(last, d[m], d[m + 1])];
      } else if m == |d| - 1 {
        d2 := d2[m := SecondDifference(d[m - 1], d[m], next)];
      }
    }
  }

  method SharpenBand(d: seq<Frame>, d2: seq<Frame>, intensity: real) returns (out: seq<Frame>, last: Frame)
    requires |d| == |d2| >= 2
    ensures |out| == |d| && last == d[|d| - 1]
    ensures forall m :: 0 <= m < |d| ==> out[m] == Sharpen(d[m], intensity, d2[m])
  {
    hide Sharpen;
    out := d;
    last := Silence;
    for m := 0 to |d|
      invariant |out| == |d|
      invariant forall k :: 0 <= k < m ==> out[k] == Sharpen(d[k], intensity, d2[k])
      invariant forall k :: m <= k < |d| ==> out[k] == d[k]
      invariant m == |d| ==> last == d[|d| - 1]
    {
      var mid := out[m];
      out := out[m := Sharpen(mid, intensity, d2[m])];
      if m == |d| - 1 {
        last := mid;
      }
    }
  }
}
