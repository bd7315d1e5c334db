/**
 * The channel mixing of `RGBFrame.reduce_to_RGB` in browser/models.py:
 * up to six rescaled 8-bit channels are folded into red, green and blue.
 */
module Rgb {
  import opened Numbers

  /** An 8-bit value: the rescaled channels are `uint8`. */
  type Byte = x: nat | x < 256

  /** `np.clip(v, 0, 255)` on a non-negative value. */
  function Clip(v: nat): (r: nat)
    ensures r <= 255 && (v <= 255 ==> r == v) && (v > 255 ==> r == 255)
  {
    if v > 255 then 255 else v
  }

  /**
   * What channel `c` of the input does to one RGB pixel: channels 0-2 are
   * copied to their own output, cyan (3) is added to green and blue,
   * magenta (4) to red and blue, yellow (5) to red and green; then all
   * three are clipped.
   */
  function Mix(rgb: seq<nat>, value: Byte, c: nat): (r: seq<nat>)
    requires |rgb| == 3 && c < 6
    ensures |r| == 3 && r[0] <= 255 && r[1] <= 255 && r[2] <= 255
    ensures c < 3 ==> r[c] == value
  {
    var added :=
      if c < 3 then rgb[c := value]
      else if c == 3 then [rgb[0], rgb[1] + value, rgb[2] + value]
      else if c == 4 then [rgb[0] + value, rgb[1], rgb[2] + value]
      else [rgb[0] + value, rgb[1] + value, rgb[2]];
    [Clip(added[0]), Clip(added[1]), Clip(added[2])]
  }

  /** The RGB pixel after the first `c` channels of `px` have been mixed in. */
  function MixedUpTo(px: seq<Byte>, c: nat): (r: seq<nat>)
    requires c <= |px| && c <= 6
    ensures |r| == 3 && r[0] <= 255 && r[1] <= 255 && r[2] <= 255
  {
    if c == 0 then [0, 0, 0] else Mix(MixedUpTo(px, c - 1), px[c - 1], c - 1)
  }

  /** The channels a pixel has; channels 6 and up are never read. */
  function Used(px: seq<Byte>): nat {
    Min(6, |px|)
  }

  /** Whether input channel `c` feeds output channel `k`. */
  predicate Feeds(c: nat, k: nat) {
    || c == k
    || (c == 3 && (k == 1 || k == 2))
    || (c == 4 && (k == 0 || k == 2))
    || (c == 5 && (k == 0 || k == 1))
  }

  /** The sum of the first `c` channels of `px` that feed output `k`. */
  function FedSum(px: seq<Byte>, k: nat, c: nat): nat
    requires c <= |px|
  {
    if c == 0 then 0 else FedSum(px, k, c - 1) + (if Feeds(c - 1, k) then px[c - 1] as nat else 0)
  }

  /** Clipping after every addition is the same as clipping the whole sum once. */
  lemma ClipAdd(s: nat, v: nat)
    ensures Clip(Clip(s) + v) == Clip(s + v)
  {
  }

  /** Output channels 0-2 are untouched until their own input channel comes. */
  lemma {:induction false} FedSumBefore(px: seq<Byte>, k: nat, c: nat)
    requires c <= |px| && c <= k < 3
    ensures FedSum(px, k, c) == 0
  {
    if c > 0 {
      FedSumBefore(px, k, c - 1);
    }
  }

  /** Each output channel is the sum of the inputs that feed it, capped at 255. */
  lemma {:induction false} MixedIsClippedSum(px: seq<Byte>, c: nat, k: nat)
    requires c <= |px| && c <= 6 && k < 3
    ensures MixedUpTo(px, c)[k] == Clip(FedSum(px, k, c))
  {
    if c > 0 {
      MixedIsClippedSum(px, c - 1, k);
      var before := MixedUpTo(px, c - 1);
      var ch := c - 1;
      if ch < 3 && k == ch {
        FedSumBefore(px, k, ch);
      } else if Feeds(ch, k) {
        ClipAdd(FedSum(px, k, ch), px[ch]);
      } else {
        assert before[k] <= 255;
      }
    }
  }

  /** The mixed pixel depends only on the channels mixed in. */
  lemma {:induction false} MixedPrefix(px: seq<Byte>, q: seq<Byte>, c: nat)
    requires c <= |px| && c <= |q| && c <= 6 && px[..c] == q[..c]
    ensures MixedUpTo(px, c) == MixedUpTo(q, c)
  {
    if c > 0 {
      assert px[..c - 1] == px[..c][..c - 1] && q[..c - 1] == q[..c][..c - 1];
      MixedPrefix(px, q, c - 1);
      assert px[c - 1] == px[..c][c - 1] && q[c - 1] == q[..c][c - 1];
    }
  }

  /** Input channels from index 6 on do not affect the pixel. */
  lemma ExtraChannelsIgnored(px: seq<Byte>)
    requires |px| >= 6
    ensures MixedUpTo(px, Used(px)) == MixedUpTo(px[..6], Used(px[..6]))
  {
    MixedPrefix(px, px[..6], 6);
  }

  /**
   * Before clipping, every sum `rgb[..., k] += frame[..., c]` the channel
   * loop forms is at most 510, so the `uint16` working image never wraps.
   */
  lemma NoWrap(px: seq<Byte>, c: nat, k: nat)
    requires c < Used(px) && k < 3
    ensures MixedUpTo(px, c)[k] + px[c] <= 510 < 0x1_0000
  {
  }

  /** The number of channels of a frame, `frame.shape[-1]`. */
  function NumChannels(frame: seq<seq<seq<Byte>>>): nat {
    if |frame| > 0 && |frame[0]| > 0 then |frame[0][0]| else 0
  }

  /** Every pixel has the same number of channels, as in a numpy array. */
  predicate Uniform(frame: seq<seq<seq<Byte>>>) {
    forall y, x :: 0 <= y < |frame| && 0 <= x < |frame[y]| ==> |frame[y][x]| == NumChannels(frame)
  }

  /**
   * `reduce_to_RGB` on an already rescaled frame `[y][x][channel]`: the
   * channel loop, each pass mixing one channel into every pixel.
   */
  method ReduceToRgb(frame: seq<seq<seq<Byte>>>) returns (rgb: seq<seq<seq<nat>>>)
    requires Uniform(frame)
    ensures |rgb| == |frame|
    ensures forall y :: 0 <= y < |rgb| ==> |rgb[y]| == |frame[y]|
    ensures forall y, x :: 0 <= y < |rgb| && 0 <= x < |rgb[y]| ==>
      rgb[y][x] == MixedUpTo(frame[y][x], Used(frame[y][x]))
  {
    var n := Min(6, NumChannels(frame));
    rgb := seq(|frame|, y requires 0 <= y < |frame| => seq(|frame[y]|, x => [0, 0, 0]));
    var c := 0;
    while c < n
      invariant 0 <= c <= n
      invariant |rgb| == |frame|
      invariant forall y :: 0 <= y < |rgb| ==> |rgb[y]| == |frame[y]|
      invariant forall y, x :: 0 <= y < |rgb| && 0 <= x < |rgb[y]| ==> rgb[y][x] == MixedUpTo(frame[y][x], c)
    {
      rgb := seq(|rgb|, y requires 0 <= y < |rgb| =>
        seq(|rgb[y]|, x requires 0 <= x < |rgb[y]| => Mix(rgb[y][x], frame[y][x][c], c)));
      c := c + 1;
    }
  }

  /** Every output value is the capped sum of the channels that feed it, so at most 255. */
  lemma ReducedPixel(px: seq<Byte>, k: nat)
    requires k < 3
    ensures MixedUpTo(px, Used(px))[k] == Clip(FedSum(px, k, Used(px)))
    ensures MixedUpTo(px, Used(px))[k] <= 255
  {
    MixedIsClippedSum(px, Used(px), k);
  }
}
