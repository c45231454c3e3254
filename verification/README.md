# A verified model of the WebRTC speech-to-text pilot

The pilot takes a caller's voice over WebRTC, cuts it into utterances with a
voice-activity detector, carries the PCM to a Python process over ZeroMQ, and
transcribes one utterance at a time.  A signaling server assigns callers to
media nodes.  This project models the parts that hold state, and proves what
they promise over whole runs.

| module | what it models |
|---|---|
| `Speech` | what an utterance is, said about the history of pushes alone: no state machine, no buffers, no labels |
| `ChunkPacker` | `_send_stt_pcm`, the packing routine both detectors contain, and the meaning of a stream of labelled chunks |
| `RnnoiseVad`, `RnnoiseFrontEnd` | `RTCRNNoiseVad`: the speech state machine over whole runs, and the object with its five loops over fixed buffers |
| `LegacyVad`, `LegacyFrontEnd` | `RTCLegacyVad`: the same for the detector that takes one 10 ms frame at a time |
| `Framing`, `VadZmqClient` | the multipart framing, the receive loop, the queue and its lifecycle |
| `SttServer` | `handle_event` and the per-client buffers |
| `SpeechPipeline` | the pipeline end to end |
| `ServerNode`, `SignalingServer`, `SignalingProtocol`, `SignalingHistory` | the node, the server, the two of them joined by queues, and what the events alone say about them |
| `WebSocketClient` | the send ring and the assembly of fragments |
| `Pcm`, `IpAddress` | sample conversion, and the IPv4 recogniser |
| `VadInterface`, `Blocks`, `Std` | shared pieces |

Each object of the source is a class whose methods are proved against a function
on its state; the theorems about runs are about those functions.

## Main results

* **Speech, end to end** (`SpeechPipeline.EndToEnd`).  For any number of clients,
  whatever the order in which their detectors' chunks enter the queue, the queue's
  thread gets its turns and the pool takes events of different clients, the audio
  given to the transcriber for a client is at every moment a prefix of the client's
  utterances, one for each `end` handled, and is all of them once its chunks have been
  handled.  An utterance is
  defined by `Speech.Completed`: from an active push to the push that makes exactly
  101 passive ones in a row.
* **The two signaling parties agree** (`SignalingProtocol.Agreement`).  In every
  reachable state the commands queued for a node, applied to the node's map, give the
  server's list for that node without the peers whose `fail` is on its way.
* **No negotiation message is orphaned, and no node loses a peer**
  (`SignalingProtocol.NotOrphaned`, `SignalingProtocol.OfferIsQueued`,
  `SignalingProtocol.NodesLoseNoPeer`), also for what was on its way when a socket
  failed.
* **What callers are told and where they go** (`SignalingHistory.RegistrationAnswered`,
  `SignalingHistory.NodesInOrder`): said about the events alone, a registration succeeds
  exactly if a node is connected, and leads to the one that connected first.
* **The signal path** (`RnnoiseFrontEnd.HeardPasses`): what is in the PCM of a push, from
  the downmixed samples on, said block by block without the loops.
* **The send ring is a queue exactly when no write reports an error**
  (`WebSocketClient.SendIsFifo`, `WebSocketClient.RetiredIsWrittenIff`).

## Where the code does less than one would expect

Each of these is a theorem with its exact condition, and where that is not plain from the
condition, one with an input that fails.

* `RTCLegacyVad` labels every chunk with PCM `start`, because the flag that opens an
  utterance is the one the first flush clears.  The server replaces its buffer on
  `start`, so it transcribes only the last buffer of each utterance
  (`SpeechPipeline.LegacyEndToEnd`).  The pipeline is right with this detector
  exactly when every finished utterance has at most 1920 bytes
  (`SpeechPipeline.LegacyCompleteIff`); seven voiced frames and a pause are enough to
  lose audio (`SpeechPipeline.LegacyLosesAudio`).  `RTCPeer` does not select it.
* The packer flushes when its size *equals* 1920.  With a fixed number of 10 ms
  blocks per push, its copies stay inside the buffer exactly when that number divides
  6 (`RnnoiseVad.SafeIffDivides6`).
* The resampled blocks fit their buffer for every sample count up to 2000 exactly
  when a 10 ms block has at least 154 samples (`RnnoiseFrontEnd.OutputFitsIff`).
* A negative `lws_write` result is compared as unsigned and counts as a complete write
  (`WebSocketClient.MiscountedIffError`).  The messages taken off the ring are those
  written in full exactly when no write of an offered message reports an error
  (`WebSocketClient.RetiredIsWrittenIff`); one error loses a message unsent
  (`WebSocketClient.ErrorLosesMessage`).
* A receive callback without data is ignored even when it ends a message, so
  reassembly is right exactly when every message ends with data
  (`WebSocketClient.ReassembledIff`, `WebSocketClient.EmptyFinalGlues`).
* An offer of a peer whose node has closed makes the handler throw.  This happens
  exactly when the node is gone, never while the peer's socket is open
  (`SignalingProtocol.NegotiateThrowsIff`, `SignalingProtocol.NegotiateCanThrow`).
* Adding a peer id that is live replaces the old peer without closing it; no peer is
  lost exactly when that never happens (`ServerNode.PeersConserved`,
  `ServerNode.ReplacedIsLost`).  The server never makes it happen
  (`SignalingProtocol.NodesLoseNoPeer`).
* `is_valid_ip` accepts an empty last number, as in `1.2.3.`
  (`IpAddress.AcceptedIsQuadIff`, `IpAddress.TrailingDotAccepted`).

## Assumptions

* The denoiser, the resampler and the downmix are parameters with a state of their
  own; only the sizes of what they return are assumed.
* A float is the real number it stands for.  The conversions scale by powers of two
  and round to integers in the int16 range, which binary32 does exactly; the threshold
  is the binary32 value of 0.6.  NaN, and denoised samples an int32 cannot hold, are
  outside the model.
* The number of blocks per push of a detector is fixed, and divides 6 where the packing
  is concerned.
* The events of one client are handled in the order they were received.  The pool does
  not ensure this; `SttServer.OrderWithinClientMatters` shows what is lost otherwise.
* Client ids are ASCII.
* `lws_write` gives an int32, and a message has less than 2^63 bytes.
* Connection ids are fresh.  A peer registers once, while its socket is open; `close`
  is the last event of a socket; the microtask after a connection runs before any other
  event.  A socket that is not open drops what is sent to it, and the agreement is
  claimed for nodes whose socket is open.

## Model

| member | source | states |
|---|---|---|
| RnnoiseVad.EndExactly | rtc_server_node/RTCServerNode/rtc_voice_activity/RTCRNNoiseVad.cc:107-140 | a push sends an `end` exactly when it is the 101st passive push in a row after an active one, in every run |
| RnnoiseVad.CounterIsExact | rtc_server_node/RTCServerNode/rtc_voice_activity/RTCRNNoiseVad.cc:107-140 | the speech flag says whether an active push came since the last utterance end, and then the counter is the number of passive pushes since the last active one, at most 100 |
| RnnoiseVad.SendingOff | rtc_server_node/RTCServerNode/rtc_voice_activity/RTCRNNoiseVad.cc:107-140 | a detector created with sending off sends nothing in any run and never begins a buffer |
| RnnoiseVad.Conserves | rtc_server_node/RTCServerNode/rtc_voice_activity/RTCRNNoiseVad.cc:107-188 | for pushes of any sizes, the payloads between two `end`s are the PCM of one utterance, and the open payloads followed by the pending bytes are the open utterance |
| RnnoiseVad.AllPcmIsSent | rtc_server_node/RTCServerNode/rtc_voice_activity/RTCRNNoiseVad.cc:143-188 | in every run all payloads followed by the pending bytes are all the active PCM so far, in order |
| RnnoiseVad.LabelGrammar | rtc_server_node/RTCServerNode/rtc_voice_activity/RTCRNNoiseVad.cc:107-188 | the labels of every run are a prefix of (start speeching* end)*, with the flag invariants this rests on |
| RnnoiseVad.Bounded | rtc_server_node/RTCServerNode/rtc_voice_activity/RTCRNNoiseVad.cc:143-188 | with 1, 2, 3 or 6 blocks a push, the pending size is a whole number of pushes below 1920 and every chunk but the last of an utterance has 1920 bytes |
| RnnoiseVad.SafeIffDivides6 | rtc_server_node/RTCServerNode/rtc_voice_activity/RTCRNNoiseVad.cc:143-166 | the copies of all runs with a fixed number of blocks stay inside the pending buffer if and only if the number divides 6 |
| RnnoiseFrontEnd.ActiveIffSomeBlock | rtc_server_node/RTCServerNode/rtc_voice_activity/RTCRNNoiseVad.cc:77-107 | the peak reaches the threshold exactly when the probability of some block does |
| RnnoiseFrontEnd.HeardActiveIff | rtc_server_node/RTCServerNode/rtc_voice_activity/RTCRNNoiseVad.cc:68-107 | a call counts as active exactly when some whole block of its downmixed input is active |
| RnnoiseFrontEnd.HeardPasses | rtc_server_node/RTCServerNode/rtc_voice_activity/RTCRNNoiseVad.cc:68-107 | each whole block of the downmixed input goes to the denoiser as it is, the denoised samples go to the resampler cut off towards zero and clamped, block after block and state after state; the push is active exactly if some probability reaches the threshold, and its PCM is the resampled blocks in order |
| RnnoiseFrontEnd.DenoisedBlock | rtc_server_node/RTCServerNode/rtc_voice_activity/RTCRNNoiseVad.cc:80-87 | the in-place pass leaves in each block what the denoiser makes of that block of the input, in order |
| RnnoiseFrontEnd.ResampledBlock | rtc_server_node/RTCServerNode/rtc_voice_activity/RTCRNNoiseVad.cc:102-105 | each group of 160 output samples is the corresponding block resampled |
| RnnoiseFrontEnd.OutputFitsIff | rtc_server_node/RTCServerNode/rtc_voice_activity/RTCRNNoiseVad.cc:70-105 | 160 samples per whole block fit 2000 for all sample counts up to 2000 if and only if a block has at least 154 samples |
| RnnoiseFrontEnd.Detector.PushPcm | rtc_server_node/RTCServerNode/rtc_voice_activity/RTCRNNoiseVad.cc:59-141 | one call is one step of the state machine on what was heard; before setConfig it does nothing; all indices stay inside the buffers |
| RnnoiseFrontEnd.Detector.Listen | rtc_server_node/RTCServerNode/rtc_voice_activity/RTCRNNoiseVad.cc:68-107 | the signal path leaves in the output buffer the PCM of the push and tells whether it is active |
| RnnoiseFrontEnd.Detector.FillFloats | rtc_server_node/RTCServerNode/rtc_voice_activity/RTCRNNoiseVad.cc:73-75 | the float buffer holds the mono samples |
| RnnoiseFrontEnd.Detector.Denoise | rtc_server_node/RTCServerNode/rtc_voice_activity/RTCRNNoiseVad.cc:77-87 | the loop over blocks computes the peak and the denoised buffer of the specification |
| RnnoiseFrontEnd.Detector.ToMono | rtc_server_node/RTCServerNode/rtc_voice_activity/RTCRNNoiseVad.cc:89-100 | every sample is truncated towards zero and clamped to int16 |
| RnnoiseFrontEnd.Detector.Resample | rtc_server_node/RTCServerNode/rtc_voice_activity/RTCRNNoiseVad.cc:102-105 | the blocks are resampled one after the other into the output buffer |
| RnnoiseFrontEnd.Detector.OnVerdict | rtc_server_node/RTCServerNode/rtc_voice_activity/RTCRNNoiseVad.cc:107-140 | the flags, the counter, the pending buffer and the sent chunks change as in one step of the state machine |
| RnnoiseFrontEnd.Detector.SetConfig | rtc_server_node/RTCServerNode/rtc_voice_activity/RTCRNNoiseVad.cc:50-57 | the rate and the external states are set and the speech state is kept |
| ChunkPacker.SttPacker.SendPcm | rtc_server_node/RTCServerNode/rtc_voice_activity/RTCRNNoiseVad.cc:145-167 | PCM is appended to the pending buffer in place, and a full buffer is labelled and sent |
| ChunkPacker.SttPacker.SendEnd | rtc_server_node/RTCServerNode/rtc_voice_activity/RTCRNNoiseVad.cc:168-187 | what is pending is labelled and sent, then an empty `end` |
| ChunkPacker.AddConserves | rtc_server_node/RTCServerNode/rtc_voice_activity/RTCRNNoiseVad.cc:145-167 | sent bytes followed by pending bytes grow by exactly the PCM given, and no utterance is closed |
| ChunkPacker.FinishCloses | rtc_server_node/RTCServerNode/rtc_voice_activity/RTCRNNoiseVad.cc:168-187 | exactly one utterance is closed, with what was sent and pending, and nothing stays pending |
| LegacyVad.Conserves | rtc_server_node/RTCServerNode/rtc_voice_activity/RTCLegacyVad.cc:72-153 | for every verdict sequence the payloads between two `end`s are the active frames between them, the start flag is up exactly while a buffer is pending, and the counter is exact |
| LegacyVad.AllPcmIsSent | rtc_server_node/RTCServerNode/rtc_voice_activity/RTCLegacyVad.cc:109-153 | in every run all payloads followed by the pending bytes are all the active frames so far, in order |
| LegacyVad.SendingOff | rtc_server_node/RTCServerNode/rtc_voice_activity/RTCLegacyVad.cc:72-107 | with sending off nothing is sent, and the pending buffer does not change |
| LegacyVad.EndExactly | rtc_server_node/RTCServerNode/rtc_voice_activity/RTCLegacyVad.cc:74-107 | a segment gets its `end` exactly at its 201st passive verdict since the last active one, error verdicts ignored |
| LegacyVad.Bounded | rtc_server_node/RTCServerNode/rtc_voice_activity/RTCLegacyVad.cc:109-153 | the pending size is a whole number of frames below 1920, the next frame fits, and every chunk but the last of a segment is full |
| LegacyVad.NeverSpeeching | rtc_server_node/RTCServerNode/rtc_voice_activity/RTCLegacyVad.cc:75-131 | no chunk is ever labelled `speeching` |
| LegacyVad.GrammarIff | rtc_server_node/RTCServerNode/rtc_voice_activity/RTCLegacyVad.cc:75-153 | the label grammar holds exactly when every finished utterance fits one buffer and the open one has not filled two |
| LegacyVad.FeedInTwo | rtc_server_node/RTCServerNode/rtc_voice_activity/RTCLegacyVad.cc:65-69 | the verdicts of two calls do to the state, and send, what they do in one list |
| LegacyFrontEnd.Detector.PushPcm | rtc_server_node/RTCServerNode/rtc_voice_activity/RTCLegacyVad.cc:55-70 | a call feeds the verdicts on its whole blocks to the state machine, in order, and no copy leaves a buffer |
| LegacyFrontEnd.HeardPasses | rtc_server_node/RTCServerNode/rtc_voice_activity/RTCLegacyVad.cc:62-74 | each whole block of the downmixed input is resampled and the result judged, state after state; an active verdict carries the resampled samples, a passive one is silence, any other an error |
| LegacyFrontEnd.Detector.PushBlocks | rtc_server_node/RTCServerNode/rtc_voice_activity/RTCLegacyVad.cc:65-69 | the loop resamples, judges and processes the blocks one after the other |
| LegacyFrontEnd.Detector.Process16Khz10Ms | rtc_server_node/RTCServerNode/rtc_voice_activity/RTCLegacyVad.cc:72-107 | one frame and its verdict are one step of the state machine |
| Framing.FramingExact | rtc_server_node/RTCServerNode/rtc_zmq_client/RTCVADZmqClient.cc:99-127 | the message has 2 parts for an "end" and 3 otherwise, the last being the data, and decodes to what was queued if and only if an "end" carries no data |
| Framing.RaisesIff | aone_simple_stt_server/aone_simple_stt_server.py:95-101 | the loop raises exactly on a missing client or kind, text it cannot decode, or a missing payload of anything but an "end" |
| Framing.ReceivedStays | aone_simple_stt_server/aone_simple_stt_server.py:85-103 | what was submitted does not depend on later parts, and after a message has raised nothing more is |
| Framing.ReceiveRoundTrip | aone_simple_stt_server/aone_simple_stt_server.py:85-103 | the receive loop finds the boundaries of any number of messages and submits exactly the events that were sent, in order |
| Framing.ReceiveMessage | aone_simple_stt_server/aone_simple_stt_server.py:86-92 | the inner loop collects the parts up to the first one without RCVMORE, or waits |
| Framing.ReceiveLoop | aone_simple_stt_server/aone_simple_stt_server.py:85-103 | the outer loop submits the events of the specification and stops where indexing or decoding raises |
| VadZmqClient.QueueIsFifo | rtc_server_node/RTCServerNode/rtc_zmq_client/RTCVADZmqClient.cc:42-132 | over every interleaving the client is started exactly when its thread exists, and what was sent followed by what is queued is what was given, in order |
| VadZmqClient.SentInOrder | rtc_server_node/RTCServerNode/rtc_zmq_client/RTCVADZmqClient.cc:183-275 | over any number of restarts nothing is sent twice, out of order or without being accepted |
| VadZmqClient.TurnsDrain | rtc_server_node/RTCServerNode/rtc_zmq_client/RTCVADZmqClient.cc:86-132 | as many turns as voices are queued send all that was given in the session, if the socket is open |
| VadZmqClient.PhaseFromHistory | rtc_server_node/RTCServerNode/rtc_zmq_client/RTCVADZmqClient.cc:185-234 | the state is the one that the last start or stop that took effect led to |
| VadZmqClient.ProcessorThread.ThreadLoop | rtc_server_node/RTCServerNode/rtc_zmq_client/RTCVADZmqClient.cc:86-132 | one turn takes the front of the queue and writes its parts, and does nothing once stopping |
| VadZmqClient.ProcessorThread.PushVadPcmBuffer | rtc_server_node/RTCServerNode/rtc_zmq_client/RTCVADZmqClient.cc:48-52 | the buffer goes to the back of the queue |
| VadZmqClient.ZmqClient.OnStart | rtc_server_node/RTCServerNode/rtc_zmq_client/RTCVADZmqClient.cc:185-209 | the state and the thread change as in the specification, keeping their equivalence |
| VadZmqClient.ZmqClient.OnStop | rtc_server_node/RTCServerNode/rtc_zmq_client/RTCVADZmqClient.cc:210-234 | a stop succeeds only when started, and ends the thread |
| VadZmqClient.ZmqClient.OnSendVadPcm | rtc_server_node/RTCServerNode/rtc_zmq_client/RTCVADZmqClient.cc:235-246 | a buffer is queued when started and dropped otherwise |
| VadZmqClient.ZmqClient.OnTurn | rtc_server_node/RTCServerNode/rtc_zmq_client/RTCVADZmqClient.cc:86-132 | a turn of the client's thread sends the oldest queued voice |
| SttServer.Isolation | aone_simple_stt_server/aone_simple_stt_server.py:38-80 | for every order of events, each client's buffer and transcripts are those of its own events run alone |
| SttServer.AudioOfSamples | aone_simple_stt_server/aone_simple_stt_server.py:57-61 | the transcriber is given the int16 samples that were copied into the buffer, in order, each over 32768 |
| SttServer.BufferIsHeard | aone_simple_stt_server/aone_simple_stt_server.py:41-47 | whatever the events and their order, a client's buffer is the PCM since its last `start`, or its last `end` if that came later |
| SttServer.EndTranscribes | aone_simple_stt_server/aone_simple_stt_server.py:49-78 | the transcriber is called exactly for an `end` that finds one or more whole samples, with the audio of the client's buffer |
| SttServer.Assembles | aone_simple_stt_server/aone_simple_stt_server.py:41-80 | if the labels follow the grammar, what is transcribed is what was sent between two `end`s, and a `start` finds an empty buffer |
| SttServer.Replaces | aone_simple_stt_server/aone_simple_stt_server.py:41-80 | if no chunk is labelled `speeching`, only the last chunk before each `end` is transcribed |
| SttServer.OrderWithinClientMatters | aone_simple_stt_server/aone_simple_stt_server.py:34-103 | two orders of one client's events that give different transcripts |
| SttServer.SttProcess.HandleEvent | aone_simple_stt_server/aone_simple_stt_server.py:38-80 | start replaces, speeching extends, end transcribes a non-empty whole number of samples and clears |
| SpeechPipeline.EndToEnd | aone_simple_stt_server/aone_simple_stt_server.py:38-103 | for all interleavings of detectors, queue and pool, each client's transcripts are a prefix of its utterances, sample for sample, one for each `end` handled, and all of them when everything has been handled |
| SpeechPipeline.RnnoiseEndToEnd | rtc_server_node/RTCServerNode/rtc_voice_activity/RTCRNNoiseVad.cc:107-188 | for every history the server transcribes exactly the finished utterances, sample for sample, and its buffer with the pending bytes is the open one |
| SpeechPipeline.StartFindsEmptyBuffer | rtc_server_node/RTCServerNode/rtc_voice_activity/RTCRNNoiseVad.cc:155-187 | at no point of a run does a `start` replace a buffer with something in it |
| SpeechPipeline.LegacyEndToEnd | rtc_server_node/RTCServerNode/rtc_voice_activity/RTCLegacyVad.cc:72-153 | the server transcribes, of every utterance, only the bytes of the last buffer it was cut into |
| SpeechPipeline.LegacyCompleteIff | rtc_server_node/RTCServerNode/rtc_voice_activity/RTCLegacyVad.cc:72-153 | the transcripts are the utterances if and only if each has at most 1920 bytes |
| SpeechPipeline.LegacyLosesAudio | rtc_server_node/RTCServerNode/rtc_voice_activity/RTCLegacyVad.cc:72-153 | of an utterance of seven frames or more, one transcript is made, of at most 960 of its samples |
| ServerNode.KeysAreLive | rtc_server_node/RTCServerNode/rtc_server_node/RTCServerNode.cc:306-334 | after any run the keys of the map are the peers added successfully and not removed since |
| ServerNode.PeersConserved | rtc_server_node/RTCServerNode/rtc_server_node/RTCServerNode.cc:306-334 | a created peer is in the map once or was closed once, never both; none is lost if and only if no successful add named a live peer |
| ServerNode.ReplacedIsLost | rtc_server_node/RTCServerNode/rtc_server_node/RTCServerNode.cc:306-321 | of two peers added under one id the first is neither in the map nor closed |
| ServerNode.HoldsOwnPeer | rtc_server_node/RTCServerNode/rtc_server_node/RTCServerNode.cc:306-321 | after any run the peer under an id is the one that the last successful add of that id created |
| ServerNode.HandedToLivePeer | rtc_server_node/RTCServerNode/rtc_server_node/RTCServerNode.cc:336-371 | after any run an offer or candidate is handed over exactly if its id was added and not removed, and then to the very peer the last add of that id created, which is not closed |
| ServerNode.RemoveClosesOwnPeer | rtc_server_node/RTCServerNode/rtc_server_node/RTCServerNode.cc:323-334 | a remove closes the peer the last add of its id created, and no other |
| ServerNode.OnlyRemoveCloses | rtc_server_node/RTCServerNode/rtc_server_node/RTCServerNode.cc:182-231 | no other command closes a peer |
| ServerNode.RepliesMatch | rtc_server_node/RTCServerNode/rtc_server_node/RTCServerNode.cc:182-209 | replies match add and remove commands one for one and in order |
| ServerNode.RtcServerNode.OnMessageReceived | rtc_server_node/RTCServerNode/rtc_server_node/RTCServerNode.cc:182-231 | a message changes the map, closes peers and replies as in the specification |
| ServerNode.RtcServerNode.AddPeerM | rtc_server_node/RTCServerNode/rtc_server_node/RTCServerNode.cc:306-321 | a created peer is put in the map, a failed creation changes nothing |
| ServerNode.RtcServerNode.RemovePeerM | rtc_server_node/RTCServerNode/rtc_server_node/RTCServerNode.cc:323-334 | a known peer leaves the map and is closed, an unknown one changes nothing |
| ServerNode.RtcServerNode.OnPeerSdpM | rtc_server_node/RTCServerNode/rtc_server_node/RTCServerNode.cc:336-351 | the SDP is handed to the peer of the map, if there is one, and the status is OK exactly if the peer takes it |
| ServerNode.RtcServerNode.OnPeerCandidateM | rtc_server_node/RTCServerNode/rtc_server_node/RTCServerNode.cc:353-371 | the candidate is handed to the peer of the map, if there is one, and the status is OK exactly if the peer takes it |
| SignalingServer.Signaling.OnConnectPeer | aone_simple_signaling_server/src/signaling_server.ts:70-76 | a new peer enters the table, and leaves it at once if its socket is not open |
| SignalingServer.Signaling.OnCreatePeer | aone_simple_signaling_server/src/signaling_server.ts:242-249 | the microtask drops a peer whose socket is not open |
| SignalingServer.Signaling.OnConnectNode | aone_simple_signaling_server/src/signaling_server.ts:78-84 | a new node goes behind all others, and leaves at once if its socket is not open |
| SignalingServer.Signaling.OnPeerRegist | aone_simple_signaling_server/src/signaling_server.ts:111-143 | the peer is assigned to the first node, which is told; without a node the registration fails |
| SignalingServer.Signaling.OnPeerClose | aone_simple_signaling_server/src/signaling_server.ts:94-109 | the peer leaves the tables and its node is told, if there still is one |
| SignalingServer.Signaling.OnPeerNegotiate | aone_simple_signaling_server/src/signaling_server.ts:145-167 | the message goes to the assigned node, or the handler throws |
| SignalingServer.Signaling.OnRtcNodeAddPeerRes | aone_simple_signaling_server/src/signaling_server.ts:185-193 | a failure closes the peer, if it is still in the table, and takes it off the list |
| SignalingServer.Signaling.OnRtcNodeClose | aone_simple_signaling_server/src/signaling_server.ts:229-240 | the node and its list go, and every listed peer is closed |
| SignalingServer.Signaling.NodeToPeerAdd | aone_simple_signaling_server/src/signaling_server.ts:261-266 | the peer is appended to the node's list |
| SignalingServer.Signaling.NodeToPeerRemove | aone_simple_signaling_server/src/signaling_server.ts:268-280 | the first occurrence of the peer is spliced out of the node's list |
| SignalingServer.Peer.CloseSocket | aone_simple_signaling_server/src/peer.ts:63-69 | only an open socket starts to close |
| SignalingProtocol.Always | aone_simple_signaling_server/src/signaling_server.ts:94-280 | the invariant over the tables, the queues and the nodes holds in every reachable state |
| SignalingProtocol.Agreement | aone_simple_signaling_server/src/signaling_server.ts:94-143 | the queued commands applied to the node's map give the server's list without the peers whose `fail` is on its way |
| SignalingProtocol.QuietAgreement | rtc_server_node/RTCServerNode/rtc_server_node/RTCServerNode.cc:182-209 | with both queues empty the node's map and the server's list are the same set |
| SignalingProtocol.NotOrphaned | rtc_server_node/RTCServerNode/rtc_server_node/RTCServerNode.cc:336-371 | a negotiation message on its way, also over a socket that failed since, is handled by the node its peer is assigned to, after its add and before its remove, and exactly if the add succeeded it is handed to the very peer that add created, which is not closed |
| SignalingProtocol.NodesLoseNoPeer | rtc_server_node/RTCServerNode/rtc_server_node/RTCServerNode.cc:306-334 | in every reachable state of the two parties each peer a node made is in its map once or was closed once |
| SignalingProtocol.OfferIsQueued | aone_simple_signaling_server/src/signaling_server.ts:145-167 | what an open registered peer sends is queued for its node, behind everything already sent |
| SignalingProtocol.NegotiateThrowsIff | aone_simple_signaling_server/src/signaling_server.ts:145-167 | the look-up of a registered peer's node fails exactly when the node has closed, and never while the peer's socket is open |
| SignalingProtocol.NegotiateCanThrow | aone_simple_signaling_server/src/signaling_server.ts:229-240 | a run after which the look-up fails |
| SignalingProtocol.NodeIndex | aone_simple_signaling_server/src/signaling_server.ts:111-143 | only the first node in insertion order has a list; its peers are assigned to it, not closed, and listed once |
| SignalingProtocol.ClosedNodeStaysOut | aone_simple_signaling_server/src/signaling_server.ts:229-259 | a node that is gone never comes back and is assigned no further peer |
| SignalingHistory.NodesInOrder | aone_simple_signaling_server/src/signaling_server.ts:78-84 | in every reachable state the nodes are those that connected open and have not closed since, in the order in which they connected |
| SignalingHistory.RegistrationAnswered | aone_simple_signaling_server/src/signaling_server.ts:111-143 | a registration gets one answer: success exactly if some node is connected, and then the peer is assigned to the one that connected first of those still there; otherwise failure and no node |
| SignalingHistory.PeersFromEvents | aone_simple_signaling_server/src/signaling_server.ts:70-109 | a peer is open exactly if it connected open and did not leave, was not closed, its node did not close and no failed add of it was read; the table holds those that connected open and whose close was not reported |
| WebSocketClient.SendIsFifo | rtc_server_node/RTCServerNode/signaling_session/RTCWebSocketClient.cc:175-318 | over every interleaving the ring is the end of what was accepted, and if no write of an offered message reports an error, the messages written in full are the retired ones, in order and once each |
| WebSocketClient.RetiredIsWrittenIff | rtc_server_node/RTCServerNode/signaling_session/RTCWebSocketClient.cc:287-318 | over every interleaving, what was retired was written in full if and only if no write of an offered message gave a negative result |
| WebSocketClient.MiscountedIffError | rtc_server_node/RTCServerNode/signaling_session/RTCWebSocketClient.cc:307-315 | over every interleaving, the mixed comparison takes an incomplete write for a complete one if and only if some write of an offered message gave a negative result |
| WebSocketClient.ErrorLosesMessage | rtc_server_node/RTCServerNode/signaling_session/RTCWebSocketClient.cc:287-318 | one send, a failed write and one more callback: the message is gone and was not sent |
| WebSocketClient.ConservedIff | rtc_server_node/RTCServerNode/signaling_session/RTCWebSocketClient.cc:202-216 | accepted messages are those written in full followed by those the ring still has to write, which destroying it drops, if and only if no write reported an error |
| WebSocketClient.RefusedWhenFull | rtc_server_node/RTCServerNode/signaling_session/RTCWebSocketClient.cc:175-200 | the ring never holds more than its slots, what is accepted is in the order of the sends, and none of the first sends is refused while there are no more of them than slots |
| WebSocketClient.AcceptedIffRoom | rtc_server_node/RTCServerNode/signaling_session/RTCWebSocketClient.cc:175-200 | a send is refused exactly when as many accepted messages as there are slots have not been taken off the ring |
| WebSocketClient.Reassembled | rtc_server_node/RTCServerNode/signaling_session/RTCWebSocketClient.cc:268-286 | messages cut in any way, each ending with data, are delivered as they were, and the receive buffer is the part of the next one |
| WebSocketClient.ReassembledIff | rtc_server_node/RTCServerNode/signaling_session/RTCWebSocketClient.cc:268-286 | the delivered messages are the originals if and only if each ends with a fragment that carries data |
| WebSocketClient.EmptyFinalGlues | rtc_server_node/RTCServerNode/signaling_session/RTCWebSocketClient.cc:271-273 | an empty final fragment joins its message to the next |
| WebSocketClient.RtcWebSocketClient.SendMsg | rtc_server_node/RTCServerNode/signaling_session/RTCWebSocketClient.cc:142-200 | a message is accepted exactly when the ring has room, at its end |
| WebSocketClient.RtcWebSocketClient.OnWriteable | rtc_server_node/RTCServerNode/signaling_session/RTCWebSocketClient.cc:287-318 | the flagged message is consumed first, then the next one is offered and flagged if its write counts |
| WebSocketClient.RtcWebSocketClient.OnReceive | rtc_server_node/RTCServerNode/signaling_session/RTCWebSocketClient.cc:268-286 | data is appended, and the message delivered when nothing of it remains |
| WebSocketClient.RtcWebSocketClient.ResetRing | rtc_server_node/RTCServerNode/signaling_session/RTCWebSocketClient.cc:202-216 | what is freed after any run without write errors is exactly the accepted messages that were not written, behind the one written but not yet consumed; a destroyed ring is left alone |
| Pcm.Int16ToFloat | rtc_server_node/RTCServerNode/utils/RTCUtils.cc:52-56 | every output is the input over 32768, and nothing past the length changes |
| Pcm.FloatToInt16 | rtc_server_node/RTCServerNode/utils/RTCUtils.cc:58-72 | every output is the quantised input, and nothing past the length changes |
| Pcm.QuantizeInvertsToFloat | rtc_server_node/RTCServerNode/utils/RTCUtils.cc:52-72 | converting to float and back is the identity on every int16 |
| Pcm.QuantizeError | rtc_server_node/RTCServerNode/utils/RTCUtils.cc:58-72 | the result is within one half of 32768 times the clamped sample, except at top saturation, where it is within one |
| Pcm.QuantizeIff | rtc_server_node/RTCServerNode/utils/RTCUtils.cc:58-72 | exactly which code a sample gets: the nearest to 32768 times the clamped sample, a tie away from zero, the top code saturating |
| Pcm.QuantizeMonotone | rtc_server_node/RTCServerNode/utils/RTCUtils.cc:58-72 | the quantisation is monotone |
| Pcm.BytesRoundTrip | aone_simple_stt_server/aone_simple_stt_server.py:57-60 | the samples read from the bytes are the samples that were copied into them |
| Pcm.BytesAreLittleEndian | rtc_server_node/RTCServerNode/rtc_voice_activity/RTCRNNoiseVad.cc:152-154 | the bytes of a sample, read as a signed little-endian number, are the sample |
| IpAddress.IsValidIp | rtc_server_node/RTCServerNodeExec/RTCServerNodeExec.cc:18-40 | the one-pass recogniser accepts exactly four groups, the first three of 1 to 3 digits and the last of 0 to 3, each at most 255 |
| IpAddress.SplitJoins | rtc_server_node/RTCServerNodeExec/RTCServerNodeExec.cc:23-36 | the groups of the grammar are the string cut at its dots |
| IpAddress.AcceptedIsQuadIff | rtc_server_node/RTCServerNodeExec/RTCServerNodeExec.cc:37-39 | dotted quads are exactly the accepted strings that do not end with a dot |
| IpAddress.TrailingDotAccepted | rtc_server_node/RTCServerNodeExec/RTCServerNodeExec.cc:18-40 | three digits with a dot after each are accepted, and are no dotted quad |
| IpAddress.AddressIsAccepted | rtc_server_node/RTCServerNodeExec/RTCServerNodeExec.cc:18-40 | four numbers up to 255 written in decimal with dots in between are accepted, and read back as those numbers |

## Left out

- The rnnoise network, the WebRTC detector, the resampler, the downmix and Whisper: not part of this model; they are parameters.
- libwebsockets, ZeroMQ, jansson, ALooper and threads: queues and atomic steps stand for them, message types for JSON.  The number of elements the ring can hold is a parameter.
- Liveness: the wait of the queue's thread is an `if` and its stop flag is set outside the lock; the model has turns only where the wait has ended with something queued or with the stop.
- The sharing of a sent buffer between threads: a chunk is the value the buffer has when it is sent.
- RnnoiseFrontEnd.Detector.PushPcm: requires that the copy into the pending buffer fits, as the memcpy does; `RnnoiseVad.SafeIffDivides6` says when it does in whole runs; and that the resampled blocks fit their buffer, as the resampler's writes do, which `RnnoiseFrontEnd.OutputFitsIff` says of all calls at once.
- SpeechPipeline.EndToEnd: speaks of the first session of the queue; `VadZmqClient.SentInOrder` covers restarts, where a stop drops what is queued.
- SetSDP and SetCandidate of a peer: their outcome is a parameter.
- Answers, candidates and ICE states sent by a node to a peer: one look-up each.
- The state of a legacy detector created with sending off, which sends nothing.
- A peer that registers twice, and replies of a node with a closed socket.
- RTCPeer, RTCServerNodeController and RTCSignalingNodeSession: relays that add no state to the properties above.
- The connection states of the WebSocket client and of the node, which no modelled branch reads.
- Dump files, logging, configuration files, prompts, the Android client and the browser page.
