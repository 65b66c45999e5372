/** Types shared by both voice clients: optional values, the byte payloads that
    travel over the synthesis connection, 16-bit PCM samples, and the shared
    speech event that the capture thread writes and the request loop reads. */
module Common {

  datatype Option<T> = None | Some(value: T)

  /** One byte of a wire payload. */
  newtype uint8 = x: int | 0 <= x < 0x100

  /** A binary message: an encoded waveform, or the empty failure sentinel. */
  type Bytes = seq<uint8>

  /** One mono PCM sample as captured from the microphone. */
  newtype int16 = x: int | -0x8000 <= x < 0x8000

  /** The process-wide `speech_started_event`: a boolean that only the VAD
      worker sets and clears, and that the request loop polls. */
  class SpeechEvent {
    var isSet: bool

    constructor ()
      ensures !isSet
    {
      isSet := false;
    }
  }
}
