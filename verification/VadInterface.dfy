/** The sizes of RTCVadInterface, shared by both voice-activity detectors. */
module VadInterface {
  const MAX_PCM_BUFFER := 2000
  const SAMPLES_16KHZ_10MS := 160
  const BLOCK_BYTES := 2 * SAMPLES_16KHZ_10MS
  const MAX_PENDING := 6 * BLOCK_BYTES
  const NON_SPEECH_THRESHOLD := 200
}
