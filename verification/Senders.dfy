/** What distinguishes the outputs of one stream from each other. */
module Senders {

  datatype Resolution = Resolution(width: nat, height: nat)

  const NO_RESOLUTION := Resolution(0, 0)

  datatype SenderKey = SenderKey(audioCodec: string, audioSampleRate: nat, videoCodec: string, videoResolution: Resolution)
}
