/** Cutting a stream into blocks of equal length. */
module Blocks {

  /** The complete frames of a stream. */
  function Frames<T>(s: seq<T>, b: nat): (fs: seq<seq<T>>)
    requires b > 0
    ensures forall i :: 0 <= i < |fs| ==> |fs[i]| == b
  {
    if |s| < b then [] else [s[..b]] + Frames(s[b..], b)
  }

  /** What is left over after the complete frames. */
  function Rest<T>(s: seq<T>, b: nat): (r: seq<T>)
    requires b > 0
    ensures |r| < b
  {
    if |s| < b then s else Rest(s[b..], b)
  }

  function Flatten<T>(fs: seq<seq<T>>): seq<T> {
    if fs == [] then [] else Flatten(fs[..|fs| - 1]) + fs[|fs| - 1]
  }

  /** Nothing is lost and nothing is invented: frames and remainder are the stream. */
  lemma {:induction false} FramesConserve<T>(s: seq<T>, b: nat)
    requires b > 0
    ensures Flatten(Frames(s, b)) + Rest(s, b) == s
  {
    if |s| >= b {
      var head, later := s[..b], Frames(s[b..], b);
      assert Frames(s, b) == [head] + later && Rest(s, b) == Rest(s[b..], b);
      hide Flatten, Frames, Rest;
      FramesConserve(s[b..], b);
      FlattenAppend([head], later);
      FlattenOne(head);
      assert s == head + s[b..];
    }
  }

  lemma FlattenOne<T>(f: seq<T>)
    ensures Flatten([f]) == f
  {
  }

  lemma {:induction false} FlattenAppend<T>(fs: seq<seq<T>>, gs: seq<seq<T>>)
    ensures Flatten(fs + gs) == Flatten(fs) + Flatten(gs)
  {
    if gs == [] {
      assert fs + gs == fs;
    } else {
      var before, g := gs[..|gs| - 1], gs[|gs| - 1];
      assert (fs + gs)[..|fs + gs| - 1] == fs + before;
      assert Flatten(fs + gs) == Flatten(fs + before) + g && Flatten(gs) == Flatten(before) + g;
      hide Flatten;
      FlattenAppend(fs, before);
    }
  }

  /** Re-blocking may stop and resume anywhere: the remainder carries over. */
  lemma {:induction false} FramesResume<T>(s: seq<T>, t: seq<T>, b: nat)
    requires b > 0
    ensures Frames(s + t, b) == Frames(s, b) + Frames(Rest(s, b) + t, b)
    ensures Rest(s + t, b) == Rest(Rest(s, b) + t, b)
  {
    if |s| >= b {
      FramesResume(s[b..], t, b);
      assert (s + t)[..b] == s[..b] && (s + t)[b..] == s[b..] + t;
    }
  }

  lemma {:induction false} FlattenLength<T>(fs: seq<seq<T>>, gs: seq<seq<T>>)
    requires |fs| == |gs| && forall i :: 0 <= i < |fs| ==> |fs[i]| == |gs[i]|
    ensures |Flatten(fs)| == |Flatten(gs)|
  {
    if fs != [] { FlattenLength(fs[..|fs| - 1], gs[..|gs| - 1]); }
  }

  /** One more element: a full remainder becomes a frame, any other only grows. */
  lemma FramesPush<T>(s: seq<T>, x: T, b: nat)
    requires b > 0
    ensures var u := Rest(s, b) + [x];
            if |u| == b then Frames(s + [x], b) == Frames(s, b) + [u] && Rest(s + [x], b) == []
            else Frames(s + [x], b) == Frames(s, b) && Rest(s + [x], b) == u
  {
    var u := Rest(s, b) + [x];
    FramesResume(s, [x], b);
    if |u| == b {
      assert u[..b] == u && u[b..] == [];
      assert Frames(u, b) == [u] && Rest(u, b) == [];
    } else {
      assert Frames(u, b) == [] && Rest(u, b) == u;
    }
  }
}
