/**
 * Values shared by the alignment engine, the matcher and the template
 * repository: feature frames and sequences (with the C# null references made
 * explicit), labelled entries, and the error results that stand for the
 * exceptions the source throws.
 */
module Types {

  datatype Option<+T> = None | Some(value: T)

  /** The exceptions of the core, as values. */
  datatype Error =
    | ArgumentException   // a missing or empty sequence, a missing user name or bag
    | NoTrainingData      // batch matching against an empty repository

  datatype Result<+T> = Success(value: T) | Failure(error: Error)

  /** The result of an operation that returns nothing but may throw. */
  datatype Outcome = Pass | Fail(error: Error)

  /** Number of MFCC coefficients the distance reads from every frame. */
  const FeatureCount: nat := 13

  /** An MFCC frame: its feature vector has at least the 13 coefficients that are read. */
  type Frame = f: seq<real> | |f| >= FeatureCount witness seq(FeatureCount, _ => 0.0)

  /** A feature sequence; `frames` is `None` when the C# `Frames` array is null. */
  datatype Sequence = Sequence(frames: Option<seq<Frame>>)

  /** A (user name, sequence) pair: a stored audio row or a labelled sample. */
  datatype Entry = Entry(owner: string, features: Sequence)

  /** The alignment engine accepts a sequence that is non-null, has non-null frames and at least one frame. */
  predicate Usable(s: Option<Sequence>)
  {
    s.Some? && s.value.frames.Some? && |s.value.frames.value| > 0
  }

  function FramesOf(s: Option<Sequence>): (x: seq<Frame>)
    requires Usable(s)
    ensures |x| > 0
  {
    s.value.frames.value
  }

  /** The owner column of a list of entries, in order. */
  function Owners(entries: seq<Entry>): (names: seq<string>)
    ensures |names| == |entries|
    ensures forall k :: 0 <= k < |entries| ==> names[k] == entries[k].owner
  {
    seq(|entries|, k requires 0 <= k < |entries| => entries[k].owner)
  }
}
