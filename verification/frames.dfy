/** The closed set of pipeline frames the serializers and the mock transport
    distinguish. Frames are immutable values. */
module Frames {

  type Byte = b: int | 0 <= b < 256

  type Bytes = seq<Byte>

  datatype Frame =
    /** `AudioRawFrame` and its input/output subclasses. */
    | Audio(audio: Bytes, sampleRate: int, numChannels: int)
    /** `StartFrame`, carrying the pipeline's negotiated input rate. */
    | Start(audioInSampleRate: int)
    | End
    | Cancel
    | Interruption
    /** Every frame kind the modelled code does not test for. */
    | Other

  /** The frames that end a call: `EndFrame` and `CancelFrame`. */
  predicate IsTerminal(f: Frame) {
    f.End? || f.Cancel?
  }
}
