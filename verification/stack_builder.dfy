/** Stack building (`getStack` in JFRToFlameGraphWriter.java): the names of the frames
    of a stack trace that the frame formatter can name, pushed in `getFrames()` order,
    so the first named frame is at the bottom of the stack and the last one on top. */
module StackBuilder {
  import opened Platform
  import opened Jmc

  /** The names that `getStack` pushes for `frames`, bottom first. */
  function NamedFrames(frames: seq<Frame>, format: Formatter, options: FormatOptions): seq<string>
    decreases |frames|
  {
    if frames == [] then []
    else
      var last := frames[|frames| - 1];
      NamedFrames(frames[..|frames| - 1], format, options)
        + (match format(last, options) case Some(name) => [name] case None => [])
  }

  /** A frame the formatter gives a name to. */
  predicate Named(frame: Frame, format: Formatter, options: FormatOptions)
  {
    format(frame, options).Some?
  }

  /** Stack building distributes over concatenation of frame sequences. */
  lemma {:induction false} NamedFramesAppend(a: seq<Frame>, b: seq<Frame>, format: Formatter, options: FormatOptions)
    ensures NamedFrames(a + b, format, options) == NamedFrames(a, format, options) + NamedFrames(b, format, options)
    decreases |b|
  {
    if b == [] {
      assert a + b == a;
    } else {
      var b' := b[..|b| - 1];
      assert (a + b)[..|a + b| - 1] == a + b';
      NamedFramesAppend(a, b', format, options);
    }
  }

  /** The stack is never longer than the trace, and has the trace's length exactly when
      every frame gets a name. */
  lemma {:induction false} NamedFramesSize(frames: seq<Frame>, format: Formatter, options: FormatOptions)
    ensures |NamedFrames(frames, format, options)| <= |frames|
    ensures |NamedFrames(frames, format, options)| == |frames| <==>
      forall i :: 0 <= i < |frames| ==> Named(frames[i], format, options)
    decreases |frames|
  {
    if frames != [] {
      var init := frames[..|frames| - 1];
      NamedFramesSize(init, format, options);
      if forall i :: 0 <= i < |frames| ==> Named(frames[i], format, options) {
        assert forall i :: 0 <= i < |init| ==> init[i] == frames[i];
      }
      if !Named(frames[|frames| - 1], format, options) {
        assert |NamedFrames(frames, format, options)| < |frames|;
      } else if |NamedFrames(frames, format, options)| == |frames| {
        forall i | 0 <= i < |frames| ensures Named(frames[i], format, options) {
          if i < |init| { assert init[i] == frames[i]; }
        }
      }
    }
  }

  /** The stack holds exactly the named frames' names, in the trace's relative order:
      `positions` picks, in increasing order, the index of the frame behind each entry,
      and skips only frames without a name. */
  lemma {:induction false} NamedFramesPositions(frames: seq<Frame>, format: Formatter, options: FormatOptions)
    returns (positions: seq<nat>)
    ensures var names := NamedFrames(frames, format, options);
      && |positions| == |names|
      && (forall k :: 0 <= k < |positions| ==> positions[k] < |frames|)
      && (forall k, l :: 0 <= k < l < |positions| ==> positions[k] < positions[l])
      && (forall k :: 0 <= k < |positions| ==> format(frames[positions[k]], options) == Some(names[k]))
      && (forall i :: 0 <= i < |frames| && Named(frames[i], format, options) ==> i in positions)
    decreases |frames|
  {
    if frames == [] {
      positions := [];
    } else {
      var n := |frames| - 1;
      var init := frames[..n];
      var names' := NamedFrames(init, format, options);
      var p := NamedFramesPositions(init, format, options);
      var names := NamedFrames(frames, format, options);
      forall k | 0 <= k < |p| ensures format(frames[p[k]], options) == Some(names'[k]) {
        assert init[p[k]] == frames[p[k]];
      }
      if Named(frames[n], format, options) {
        positions := p + [n];
        assert names == names' + [format(frames[n], options).value];
        forall k | 0 <= k < |positions| ensures format(frames[positions[k]], options) == Some(names[k]) {
          if k < |p| { assert positions[k] == p[k] && names[k] == names'[k]; }
        }
      } else {
        positions := p;
        assert names == names';
      }
      forall i | 0 <= i < |frames| && Named(frames[i], format, options) ensures i in positions {
        if i < n {
          assert init[i] == frames[i];
          assert i in p;
        } else {
          assert positions[|positions| - 1] == n;
        }
      }
    }
  }

  /** A trace with no named frame, and only such a trace, gives an empty stack. */
  lemma {:induction false} NamedFramesEmpty(frames: seq<Frame>, format: Formatter, options: FormatOptions)
    ensures NamedFrames(frames, format, options) == [] <==>
      forall i :: 0 <= i < |frames| ==> !Named(frames[i], format, options)
    decreases |frames|
  {
    if frames != [] {
      var n := |frames| - 1;
      var init := frames[..n];
      NamedFramesEmpty(init, format, options);
      assert forall i :: 0 <= i < n ==> init[i] == frames[i];
      if !Named(frames[n], format, options) {
        assert NamedFrames(frames, format, options) == NamedFrames(init, format, options);
      }
    }
  }

  /** The top of a non-empty stack is the name of the last named frame: `i` is that
      frame's index, and no frame after it has a name. */
  lemma {:induction false} NamedFramesTop(frames: seq<Frame>, format: Formatter, options: FormatOptions)
    returns (i: nat)
    requires NamedFrames(frames, format, options) != []
    ensures var names := NamedFrames(frames, format, options);
      && i < |frames|
      && format(frames[i], options) == Some(names[|names| - 1])
      && forall j :: i < j < |frames| ==> !Named(frames[j], format, options)
    decreases |frames|
  {
    var n := |frames| - 1;
    var init := frames[..n];
    if Named(frames[n], format, options) {
      i := n;
    } else {
      assert NamedFrames(frames, format, options) == NamedFrames(init, format, options);
      i := NamedFramesTop(init, format, options);
      assert init[i] == frames[i];
      assert forall j :: i < j < n ==> init[j] == frames[j];
    }
  }
}
