# Mute-Voce core rules in Dafny

This project models the deterministic rules inside the Mute-Voce audio scripts and proves properties of them. Audio capture, FFT, VAD, speaker embeddings, clustering and speech recognition are left as uninterpreted parameters. The modelled rules are:

- **Input-device resolution** (`Recorder`). This covers listing the devices that can record and resolving one by case-insensitive name substring, by the host default, or by the first capable device. It models three variants:
  - the strict `find_input_device`, which raises on a name miss;
  - the fallback `find_input_device`, which falls through to the default;
  - the interactive menu choice.

  The live transcriber (`LiveTranscriber`) and the record-and-analyze session (`SessionPipeline`) reuse these rules with their own channel requirement and precedence.
- **Framing and voice activity** (`VadEnhancer`). This covers `frame_generator`, `detect_voiced` as a loop over an abstract `is_speech` predicate, and both `enhance_audio` variants: peak normalisation to 0.9, and the mid-range boost with its clip.
- **Band-peak selection** (`BandPeak`). A spectrogram is masked to an inclusive frequency band, then the first maximal cell is taken in row-major order. The ultrasonic band reports the sentinel (0, -100) when it has no frequency row.
- **The real-time LFN monitor** (`LfnMonitor`). It is a class holding:
  - the `monitoring` flag;
  - the FIFO audio queue;
  - the number of worker threads started;
  - the rows inserted into `live_logs`.

  It models the callback gating, the start/stop toggle and one drain-then-analyse pass of the worker.
- **The batch LFN analyzer** (`LfnBatch`). This covers the extension filter, the naming of converted wav files and spectrogram images, the shape of a result row, and the `main` loop over a directory listing.
- **The live transcriber's chunk accumulator** (`LiveTranscriber.Transcriber`). It is a class whose `Valid()` invariant says that the chunks cut so far, followed by the buffer's first channel, are exactly the first channel of every block taken from the queue.
- **The speaker database** (`SpeakerRecognition`). This covers:
  - the `.npy` naming;
  - the dictionary filled by `load_known_speakers`, kept in insertion order;
  - the first-match rule of `recognize_speaker`.
- **The record-and-analyze session** (`SessionPipeline`). This covers:
  - device precedence;
  - `--list-devices` exiting early;
  - the cluster count clamp;
  - per-speaker file names and the summary row;
  - CSV headers written only on creation;
  - the search for similar earlier voiceprints.

Shared modules: `Results` (Option/Result), `Text` (Python string rules: `lower` for ASCII, `in`, `endswith`, `replace(pat, "")`, `split`, `join`, `str(n)`), `Paths` (`os.path.join`, `basename`, `splitext`) and `Signal` (magnitudes, `np.max(np.abs(x))`, concatenation, order-preserving filtering).

Integers are unbounded and samples and decibels are reals. Wall-clock readings, directory listings, file contents and the outputs of the external models are parameters.

## Model

| member | source | states |
|---|---|---|
| Recorder.FindByName | Mute-Voce-main/LiveVoiceAutoZoom/LiveVoiceAutoZoom/scripts/recorder.py:22-24 | The name search returns the lowest index whose lower-cased name contains the lower-cased query and whose device has enough input channels. It returns nothing exactly when no device matches. |
| Recorder.FirstCapable | Mute-Voce-main/LiveVoiceAutoZoom/LiveVoiceAutoZoom/scripts/recorder.py:31-35 | The last fallback returns the lowest capable index. It raises "no input device" exactly when no device is capable. |
| Recorder.ListInputDevices | Mute-Voce-main/LiveVoiceAutoZoom/LiveVoiceAutoZoom/scripts/scripts/recorder.py:50-55 | Lists exactly the capable devices, each paired with its own index and name, in strictly increasing index order, with none left out. The list is empty iff no device is capable. |
| Recorder.ListPrefixComplete | Mute-Voce-main/LiveVoiceAutoZoom/LiveVoiceAutoZoom/scripts/scripts/recorder.py:53-55 | No capable device among the enumerated ones is missing from the listing. |
| Recorder.FindInputDevice | Mute-Voce-main/LiveVoiceAutoZoom/LiveVoiceAutoZoom/scripts/recorder.py:10-35 | The strict variant. A given non-empty name yields the first match, or raises "not found" iff nothing matches (no fallback). Without a name: a default index the host does not know makes the query fail; a known default with inputs is returned; otherwise the first capable device, raising iff none exists. Any returned index names a capable device. |
| Recorder.FindWithFallback | Mute-Voce-main/LiveVoiceAutoZoom/LiveVoiceAutoZoom/scripts/scripts/recorder.py:58-83 | The fallback variant. A name match wins. On a miss or with no name: a non-negative default past the list raises IndexError; a capable default is returned; a missing, negative or incapable default falls to the first capable device. Any returned index names a capable device. |
| Recorder.PyIndex | Mute-Voce-main/LiveVoiceAutoZoom/LiveVoiceAutoZoom/scripts/scripts/recorder.py:142-145 | Python list indexing succeeds iff -n <= c < n. Negative positions count from the end. |
| Recorder.SelectInputDevice | Mute-Voce-main/LiveVoiceAutoZoom/LiveVoiceAutoZoom/scripts/scripts/recorder.py:125-146 | An empty menu raises "No input devices available". Otherwise a choice succeeds iff it parses and is a valid Python index of the menu. The result is the device index stored at that menu position, not the position. Every other choice is "Invalid device selection". |
| Recorder.FindZoomInput | Mute-Voce-main/LiveVoiceAutoZoom/LiveVoiceAutoZoom/scripts/scripts/recorder.py:120-122 | `find_zoom_input` is the strict search for "Zoom". It returns the first capable device whose lower-cased name contains "zoom", and raises "not found" otherwise. |
| Recorder.RecordDevice | Mute-Voce-main/LiveVoiceAutoZoom/LiveVoiceAutoZoom/scripts/recorder.py:37-40 | An explicit index is used unchecked. Without one, the nameless search runs. A default index the host does not know makes the query fail with that index. A known default with inputs is returned as is. With no default, or one without inputs, the result is the lowest capable index, and it fails with "no input device" exactly when no device is capable. |
| VadEnhancer.FrameLen | Mute-Voce-main/LiveVoiceAutoZoom/LiveVoiceAutoZoom/scripts/vad_enhancer.py:22 | The frame length is the whole number of samples in `sample_rate * ms / 1000`, i.e. the floor of that quotient. |
| VadEnhancer.Frames | Mute-Voce-main/LiveVoiceAutoZoom/LiveVoiceAutoZoom/scripts/vad_enhancer.py:21-24 | There are `len div frame_len` frames and each has exactly the frame length: a trailing partial frame is dropped. |
| VadEnhancer.FrameAt | Mute-Voce-main/LiveVoiceAutoZoom/LiveVoiceAutoZoom/scripts/vad_enhancer.py:23-24 | Frame k is the slice [k*n, (k+1)*n): frames are contiguous, non-overlapping and start at multiples of n. |
| VadEnhancer.FramesCover | Mute-Voce-main/LiveVoiceAutoZoom/LiveVoiceAutoZoom/scripts/vad_enhancer.py:23-24 | The frames concatenated are the input up to its last whole frame. |
| VadEnhancer.FrameGenerator | Mute-Voce-main/LiveVoiceAutoZoom/LiveVoiceAutoZoom/scripts/scripts/vad_enhancer.py:12-15 | A zero frame length makes `range` raise. Otherwise the generator yields `len div frame_len` frames. |
| VadEnhancer.AsPcm16 | Mute-Voce-main/LiveVoiceAutoZoom/LiveVoiceAutoZoom/scripts/vad_enhancer.py:27-28 | int16 input passes through unchanged. Other input is scaled by 32767 and cast sample by sample, keeping its length. |
| VadEnhancer.VoicedShape | Mute-Voce-main/LiveVoiceAutoZoom/LiveVoiceAutoZoom/scripts/vad_enhancer.py:29-34 | The voiced output's length is a multiple of the frame length and never exceeds the input's. |
| VadEnhancer.VoicedAllAccepted | Mute-Voce-main/LiveVoiceAutoZoom/LiveVoiceAutoZoom/scripts/vad_enhancer.py:29-34 | When the VAD accepts every frame, the output is the input without its trailing partial frame. |
| VadEnhancer.DetectVoiced | Mute-Voce-main/LiveVoiceAutoZoom/LiveVoiceAutoZoom/scripts/scripts/vad_enhancer.py:17-25 | The loop's output is the in-order concatenation of exactly the frames the VAD accepts. It fails iff the frame length is zero. The same code is at vad_enhancer.py:26-34 of the parent directory. |
| VadEnhancer.PeakNormalize | Mute-Voce-main/LiveVoiceAutoZoom/LiveVoiceAutoZoom/scripts/scripts/vad_enhancer.py:32-33 | A silent input gives NaNs (0/0). Otherwise the length is kept and each output sample is its input sample times 0.9 over the peak magnitude: `y[i] * peak == x[i] * 0.9`. So every magnitude is at most 0.9 and some sample reaches exactly 0.9. |
| VadEnhancer.EnhanceAudio | Mute-Voce-main/LiveVoiceAutoZoom/LiveVoiceAutoZoom/scripts/scripts/vad_enhancer.py:27-34 | Empty input gives the single sample 0. Non-empty input is NaN iff every sample is 0. Otherwise the length is kept and each sample is the input sample times 0.9 over the input's peak magnitude, for int16 and float32 input alike. Every magnitude is then at most 0.9 and some sample reaches 0.9. |
| VadEnhancer.PrescaleCancels | Mute-Voce-main/LiveVoiceAutoZoom/LiveVoiceAutoZoom/scripts/scripts/vad_enhancer.py:30-33 | Over the reals, the 1/32767 rescaling of non-float32 input cancels out in the normalisation. |
| VadEnhancer.Clip | Mute-Voce-main/LiveVoiceAutoZoom/LiveVoiceAutoZoom/scripts/vad_enhancer.py:44 | The result lies in [-1, 1]. Values inside are kept, values above become 1 and values below become -1. |
| VadEnhancer.EnhanceWithBoost | Mute-Voce-main/LiveVoiceAutoZoom/LiveVoiceAutoZoom/scripts/vad_enhancer.py:36-56 | Empty input gives one zero sample. Non-empty input is NaN exactly when the unboosted enhancement is. Otherwise the length is kept and sample i is `clip(a[i] + 1.5 * mid[i], -1, 1)`, where `a` is the peak-normalised audio and `mid` its band-pass output. Every sample lies in [-1, 1]. |
| VadEnhancer.BoostWithoutMidrange | Mute-Voce-main/LiveVoiceAutoZoom/LiveVoiceAutoZoom/scripts/vad_enhancer.py:42-44 | When the band-pass output is all zeros, the boost changes nothing: the result equals the plain peak-normalised enhancement. |
| Signal.MaxAbs | Mute-Voce-main/zoom_h6_largev3_gpu_transcriber_44100Hz/live_transcribe_zoomh6_gpu.py:66 | `np.max(np.abs(x))` bounds every magnitude and is attained by some sample. |
| Signal.Filter | Mute-Voce-main/LiveVoiceAutoZoom/LiveVoiceAutoZoom/scripts/vad_enhancer.py:31-33 | The kept blocks all come from the input, are accepted, and are no more numerous than the input blocks. |
| Signal.FilterComplete | Mute-Voce-main/LiveVoiceAutoZoom/LiveVoiceAutoZoom/scripts/vad_enhancer.py:31-33 | Every accepted block is kept: nothing the VAD accepts is dropped. |
| Signal.FilterOrder | Mute-Voce-main/LiveVoiceAutoZoom/LiveVoiceAutoZoom/scripts/vad_enhancer.py:31-33 | Two accepted blocks are kept in their input order. |
| BandPeak.BandCellsComplete | Mute-Voce-main/LFN_Docker_Toolkit_Extended/LFN_Docker_Toolkit_Extended/lfn_realtime_monitor.py:40-42 | Every cell of an in-band row (inclusive bounds) appears in the masked sub-matrix. |
| BandPeak.BandCellsOrdered | Mute-Voce-main/LFN_Docker_Toolkit_Extended/LFN_Docker_Toolkit_Extended/lfn_realtime_monitor.py:42-43 | The masked cells are in row-major order, the order `argmax` scans. |
| BandPeak.FirstMax | Mute-Voce-main/LFN_Docker_Toolkit_Extended/LFN_Docker_Toolkit_Extended/lfn_realtime_monitor.py:43 | `argmax` picks a position whose value bounds all others and is strictly larger than every earlier one, i.e. the first maximum. |
| BandPeak.PeakCell | Mute-Voce-main/LFN_Docker_Toolkit_Extended/LFN_Docker_Toolkit_Extended/lfn_realtime_monitor.py:40-43 | There is no peak cell iff the band has no cell. Otherwise the chosen cell is in band, maximal, and strictly greater than every in-band cell before it in row-major order. |
| BandPeak.BandPeak | Mute-Voce-main/LFN_Docker_Toolkit_Extended/LFN_Docker_Toolkit_Extended/lfn_realtime_monitor.py:40-44 | `argmax` raises iff the band is empty. Otherwise the frequency is in band, the dB bounds every in-band cell, and both come from the first maximal cell. |
| BandPeak.PeakRowIsLowest | Mute-Voce-main/LFN_Docker_Toolkit_Extended/LFN_Docker_Toolkit_Extended/lfn_realtime_monitor.py:43 | Ties go to the lowest in-band row: every cell of an earlier in-band row is strictly below the reported maximum. |
| BandPeak.UltrasonicPeak | Mute-Voce-main/LFN_Docker_Toolkit_Extended/LFN_Docker_Toolkit_Extended/lfn_realtime_monitor.py:47-54 | With no in-band frequency the result is the sentinel (0, -100). Otherwise it is the band peak, which can fail only when the spectrogram has no time columns. |
| BandPeak.AnalyzeBands | Mute-Voce-main/LFN_Docker_Toolkit_Extended/LFN_Docker_Toolkit_Extended/lfn_realtime_monitor.py:39-54 | The analysis fails iff the LFN band is empty (it has no guard) or the ultrasonic peak fails. Otherwise it reports the LFN band peak and the ultrasonic peak. |
| LfnMonitor.Monitor.constructor | Mute-Voce-main/LFN_Docker_Toolkit_Extended/LFN_Docker_Toolkit_Extended/lfn_realtime_monitor.py:17-18 | Monitoring starts off, with an empty queue, no worker and no log row. |
| LfnMonitor.Monitor.AudioCallback | Mute-Voce-main/LFN_Docker_Toolkit_Extended/LFN_Docker_Toolkit_Extended/lfn_realtime_monitor.py:72-74 | A block is appended to the queue iff monitoring is on. Nothing else changes. |
| LfnMonitor.Deliver | Mute-Voce-main/LFN_Docker_Toolkit_Extended/LFN_Docker_Toolkit_Extended/lfn_realtime_monitor.py:72-74 | A run of callbacks appends all its blocks in arrival order while monitoring is on, and none while it is off. |
| LfnMonitor.Monitor.Toggle | Mute-Voce-main/LFN_Docker_Toolkit_Extended/LFN_Docker_Toolkit_Extended/lfn_realtime_monitor.py:92-99 | The flag flips. Off to on starts exactly one worker; on to off starts none. Queue and log are untouched. |
| LfnMonitor.Monitor.ToggleTwice | Mute-Voce-main/LFN_Docker_Toolkit_Extended/LFN_Docker_Toolkit_Extended/lfn_realtime_monitor.py:92-99 | Two toggles restore the flag and start exactly one worker, from either state. |
| LfnMonitor.Monitor.Drain | Mute-Voce-main/LFN_Docker_Toolkit_Extended/LFN_Docker_Toolkit_Extended/lfn_realtime_monitor.py:83-85 | The drain takes every queued block in FIFO order and leaves the queue empty. |
| LfnMonitor.Monitor.RecordPass | Mute-Voce-main/LFN_Docker_Toolkit_Extended/LFN_Docker_Toolkit_Extended/lfn_realtime_monitor.py:81-88 | A pass always empties the queue. It analyses only when at least one block was drained, using the concatenation of the drained blocks in order. A successful analysis appends exactly its peaks to the log; a failure logs nothing. |
| LfnBatch.Extension | Mute-Voce-main/LFN_Docker_Toolkit_Extended/LFN_Docker_Toolkit_Extended/lfn_batch_file_analyzer.py:71 | The extension is a lower-case, dot-free suffix of the lower-cased name. |
| LfnBatch.ExtensionIs | Mute-Voce-main/LFN_Docker_Toolkit_Extended/LFN_Docker_Toolkit_Extended/lfn_batch_file_analyzer.py:71 | The extension is e iff the lower-cased name is e itself (no dot at all) or ends with "." + e. |
| LfnBatch.AcceptedIgnoresCase | Mute-Voce-main/LFN_Docker_Toolkit_Extended/LFN_Docker_Toolkit_Extended/lfn_batch_file_analyzer.py:71-72 | Acceptance of wav/mp3/mp4 does not depend on letter case. |
| LfnBatch.WavPath | Mute-Voce-main/LFN_Docker_Toolkit_Extended/LFN_Docker_Toolkit_Extended/lfn_batch_file_analyzer.py:73-77 | A wav file is analysed at its own path and any other file at a path ending in `<splitext root>_converted.wav`. For a name without '/' and a directory not ending in '/', the path is exactly `<dir>/<file>` or `<dir>/<root>_converted.wav`. |
| LfnBatch.WavPathBasename | Mute-Voce-main/LFN_Docker_Toolkit_Extended/LFN_Docker_Toolkit_Extended/lfn_batch_file_analyzer.py:73-77 | For a name without '/', the base name of the analysed path is the file's own name for wav and `<root>_converted.wav` otherwise, whatever the directory. |
| LfnBatch.ImagePath | Mute-Voce-main/LFN_Docker_Toolkit_Extended/LFN_Docker_Toolkit_Extended/lfn_batch_file_analyzer.py:51 | The image path of a listed name is `spectrograms/<splitext root>.png`. |
| LfnBatch.AnalyzeAudio | Mute-Voce-main/LFN_Docker_Toolkit_Extended/LFN_Docker_Toolkit_Extended/lfn_batch_file_analyzer.py:22-63 | An unreadable file fails, and so does a failed band analysis. A readable file whose band analysis succeeds always gives a row. That row carries the label as Filename, the image path, and exactly the band peaks of the file's spectrogram. |
| LfnBatch.FileRow | Mute-Voce-main/LFN_Docker_Toolkit_Extended/LFN_Docker_Toolkit_Extended/lfn_batch_file_analyzer.py:72-84 | A listed file yields a row iff it is accepted and the analysis of its wav path succeeds. The row is then exactly that analysis result, named after the file. |
| LfnBatch.BatchRows | Mute-Voce-main/LFN_Docker_Toolkit_Extended/LFN_Docker_Toolkit_Extended/lfn_batch_file_analyzer.py:70-84 | There are at most as many rows as files. Each row is named after an accepted file of the listing, and is exactly the row that some listed file's successful analysis produced: a failed file contributes nothing. |
| LfnBatch.BatchRowsComplete | Mute-Voce-main/LFN_Docker_Toolkit_Extended/LFN_Docker_Toolkit_Extended/lfn_batch_file_analyzer.py:80-84 | Every accepted file whose analysis succeeds has its row in the report. A failure on one file does not stop the loop. |
| LfnBatch.CollectOrder | Mute-Voce-main/LFN_Docker_Toolkit_Extended/LFN_Docker_Toolkit_Extended/lfn_batch_file_analyzer.py:80-82 | Results of two listed files appear in the collected rows in listing order. |
| LfnBatch.BatchRowsOrdered | Mute-Voce-main/LFN_Docker_Toolkit_Extended/LFN_Docker_Toolkit_Extended/lfn_batch_file_analyzer.py:70-84 | The rows of two successfully analysed files appear in the report in listing order. |
| LfnBatch.NothingAccepted | Mute-Voce-main/LFN_Docker_Toolkit_Extended/LFN_Docker_Toolkit_Extended/lfn_batch_file_analyzer.py:72 | A listing with no wav/mp3/mp4 file yields no rows and no conversions. |
| LfnBatch.ConversionOf | Mute-Voce-main/LFN_Docker_Toolkit_Extended/LFN_Docker_Toolkit_Extended/lfn_batch_file_analyzer.py:76-78 | A conversion is run iff the file is accepted and not wav. Its target is the analysed wav path. For a name without '/' and a directory not ending in '/', it converts `<dir>/<file>` into `<dir>/<root>_converted.wav`. |
| LfnBatch.Conversions | Mute-Voce-main/LFN_Docker_Toolkit_Extended/LFN_Docker_Toolkit_Extended/lfn_batch_file_analyzer.py:70-78 | There are at most as many conversions as listed files, and each is the conversion that some listed file asks for. |
| LfnBatch.ConversionsComplete | Mute-Voce-main/LFN_Docker_Toolkit_Extended/LFN_Docker_Toolkit_Extended/lfn_batch_file_analyzer.py:72-78 | Every accepted file that is not wav has its conversion run. |
| LfnBatch.ConversionsOrdered | Mute-Voce-main/LFN_Docker_Toolkit_Extended/LFN_Docker_Toolkit_Extended/lfn_batch_file_analyzer.py:70-78 | Two files' conversions run in listing order. |
| LfnBatch.ProcessFile | Mute-Voce-main/LFN_Docker_Toolkit_Extended/LFN_Docker_Toolkit_Extended/lfn_batch_file_analyzer.py:71-84 | One loop turn runs exactly the file's conversion and appends exactly its row, if any. |
| LfnBatch.AnalyzeListing | Mute-Voce-main/LFN_Docker_Toolkit_Extended/LFN_Docker_Toolkit_Extended/lfn_batch_file_analyzer.py:70-84 | The loop over the listing runs exactly the listing's conversions and collects exactly its rows. |
| LfnBatch.RunBatch | Mute-Voce-main/LFN_Docker_Toolkit_Extended/LFN_Docker_Toolkit_Extended/lfn_batch_file_analyzer.py:65-89 | `main()` prints usage iff the directory argument is missing. A directory that cannot be listed makes `os.listdir` raise, and nothing is written. A report is written iff the argument is present and the directory can be listed; it holds the listing's conversions and rows, with the CSV at `<dir>/lfn_analysis_results.csv`. |
| LiveTranscriber.ListDevices | Mute-Voce-main/zoom_h6_largev3_gpu_transcriber_44100Hz/live_transcribe_zoomh6_gpu.py:22-26 | Lists exactly the devices with at least CHANNELS inputs, with their indices, in order. |
| LiveTranscriber.FindDevice | Mute-Voce-main/zoom_h6_largev3_gpu_transcriber_44100Hz/live_transcribe_zoomh6_gpu.py:28-41 | A matching name yields the first match. A name miss behaves exactly as if no name had been given. Then a non-negative default past the list raises IndexError and a default with enough inputs is returned. A missing, negative or insufficient default gives the lowest index with enough inputs, raising exactly when there is none. Any result has enough inputs. |
| LiveTranscriber.SelectDevice | Mute-Voce-main/zoom_h6_largev3_gpu_transcriber_44100Hz/live_transcribe_zoomh6_gpu.py:43-54 | An empty menu raises "No input devices available". Otherwise a choice succeeds iff it parses and is a valid Python index of the menu. The result is the device index stored at that menu position. Any other choice is "Invalid device selection". |
| LiveTranscriber.ResolveDevice | Mute-Voce-main/zoom_h6_largev3_gpu_transcriber_44100Hz/live_transcribe_zoomh6_gpu.py:125-131 | Precedence is `--choose-device`, then `--device-index` (unchecked), then the name search. A device the script picks itself has enough inputs. |
| LiveTranscriber.SilenceDecision | Mute-Voce-main/zoom_h6_largev3_gpu_transcriber_44100Hz/live_transcribe_zoomh6_gpu.py:64-68 | An empty chunk makes `np.max` fail. A chunk is skipped iff every magnitude is strictly below 0.01, and transcribed iff some magnitude reaches 0.01. |
| LiveTranscriber.Column0 | Mute-Voce-main/zoom_h6_largev3_gpu_transcriber_44100Hz/live_transcribe_zoomh6_gpu.py:97 | `buffer[:, 0]` has one sample per frame, the frame's first channel. |
| LiveTranscriber.AppendKeeps | Mute-Voce-main/zoom_h6_largev3_gpu_transcriber_44100Hz/live_transcribe_zoomh6_gpu.py:94-95 | Stacking a taken block onto the buffer keeps "chunks + buffer = everything taken". |
| LiveTranscriber.CutKeeps | Mute-Voce-main/zoom_h6_largev3_gpu_transcriber_44100Hz/live_transcribe_zoomh6_gpu.py:96-99 | Cutting the whole buffer as a chunk and emptying it keeps the same account. |
| LiveTranscriber.Transcriber.constructor | Mute-Voce-main/zoom_h6_largev3_gpu_transcriber_44100Hz/live_transcribe_zoomh6_gpu.py:91-92 | Capture starts with an empty buffer, no chunk, and the timer at the start time. |
| LiveTranscriber.Transcriber.AudioCallback | Mute-Voce-main/zoom_h6_largev3_gpu_transcriber_44100Hz/live_transcribe_zoomh6_gpu.py:56-62 | A zero-length block is dropped and any other is queued. The status flag changes nothing. The invariant is kept. |
| LiveTranscriber.Transcriber.CaptureStep | Mute-Voce-main/zoom_h6_largev3_gpu_transcriber_44100Hz/live_transcribe_zoomh6_gpu.py:94-100 | The oldest block is taken and stacked onto the buffer. If at least CHUNK_DURATION has elapsed, channel 0 of the whole buffer becomes one chunk, the buffer empties and the timer restarts; otherwise nothing else changes. No audio is dropped or duplicated. |
| LiveTranscriber.Transcriber.Capture | Mute-Voce-main/zoom_h6_largev3_gpu_transcriber_44100Hz/live_transcribe_zoomh6_gpu.py:93-100 | n turns of the loop take the first n queued blocks in order and keep the invariant. |
| LiveTranscriber.ChunksNeverFail | Mute-Voce-main/zoom_h6_largev3_gpu_transcriber_44100Hz/live_transcribe_zoomh6_gpu.py:66 | No chunk the accumulator cuts is empty, so `np.max` never fails on one. |
| SpeakerRecognition.Lookup | Mute-Voce-main/LiveVoiceAutoZoom/LiveVoiceAutoZoom/scripts/scripts/speaker_recognition.py:25 | A dictionary lookup finds nothing iff the key is absent. A found value is stored under that key. |
| SpeakerRecognition.Put | Mute-Voce-main/LiveVoiceAutoZoom/LiveVoiceAutoZoom/scripts/scripts/speaker_recognition.py:25 | `speakers[name] = e` keeps keys distinct. An existing key keeps its place and a new key is appended. |
| SpeakerRecognition.PutLookup | Mute-Voce-main/LiveVoiceAutoZoom/LiveVoiceAutoZoom/scripts/scripts/speaker_recognition.py:25 | After the assignment the key maps to the new value, and every other key to what it mapped to before. |
| SpeakerRecognition.NameOf | Mute-Voce-main/LiveVoiceAutoZoom/LiveVoiceAutoZoom/scripts/scripts/speaker_recognition.py:23 | The name is never longer than the file name. |
| SpeakerRecognition.NameOfStrips | Mute-Voce-main/LiveVoiceAutoZoom/LiveVoiceAutoZoom/scripts/scripts/speaker_recognition.py:23 | Every ".npy" is removed, not only a trailing one. A name free of ".npy", then ".npy", then more text gives the name followed by the name of the rest. So "x.npy" and "x.npy.npy" both name the speaker "x". |
| SpeakerRecognition.SavePath | Mute-Voce-main/LiveVoiceAutoZoom/LiveVoiceAutoZoom/scripts/scripts/speaker_recognition.py:16-17 | `save_speaker` writes `scripts/speakers/<name>.npy` for a relative name. Any path it writes ends in `<name>.npy`. |
| SpeakerRecognition.LoadSpec | Mute-Voce-main/LiveVoiceAutoZoom/LiveVoiceAutoZoom/scripts/scripts/speaker_recognition.py:19-26 | The loaded dictionary has distinct keys. |
| SpeakerRecognition.LoadKnownSpeakers | Mute-Voce-main/LiveVoiceAutoZoom/LiveVoiceAutoZoom/scripts/scripts/speaker_recognition.py:19-26 | The loop fills the dictionary exactly as the listing-order specification does. |
| SpeakerRecognition.LoadedNames | Mute-Voce-main/LiveVoiceAutoZoom/LiveVoiceAutoZoom/scripts/scripts/speaker_recognition.py:21-25 | A name is loaded iff some listed ".npy" file derives it. No other file contributes. |
| SpeakerRecognition.LaterFileWins | Mute-Voce-main/LiveVoiceAutoZoom/LiveVoiceAutoZoom/scripts/scripts/speaker_recognition.py:21-25 | When several files derive one name, the embedding is that of the last of them in listing order. |
| SpeakerRecognition.RecognizeFrom | Mute-Voce-main/LiveVoiceAutoZoom/LiveVoiceAutoZoom/scripts/scripts/speaker_recognition.py:29-32 | From a position on, the result is the first entry whose distance is strictly below the threshold, or None iff there is none. |
| SpeakerRecognition.RecognizeSpeaker | Mute-Voce-main/LiveVoiceAutoZoom/LiveVoiceAutoZoom/scripts/scripts/speaker_recognition.py:28-32 | `recognize_speaker` returns the first name, in insertion order, whose distance is strictly below the threshold (equality is no match). It returns None iff every distance is at least the threshold, including for an empty dictionary. |
| SpeakerRecognition.RecognizeByDefault | Mute-Voce-main/LiveVoiceAutoZoom/LiveVoiceAutoZoom/scripts/scripts/speaker_recognition.py:28-32 | With the default threshold of 0.3, the result is the first name, in insertion order, whose distance is below 0.3. It is None iff every distance is at least 0.3. |
| SpeakerRecognition.SavedFileName | Mute-Voce-main/LiveVoiceAutoZoom/LiveVoiceAutoZoom/scripts/scripts/speaker_recognition.py:17 | The file `save_speaker` writes for a name without '/' is named `<name>.npy`. |
| SpeakerRecognition.SaveThenLoad | Mute-Voce-main/LiveVoiceAutoZoom/LiveVoiceAutoZoom/scripts/scripts/speaker_recognition.py:16-25 | A speaker saved under a name free of ".npy" and '/' is loaded back under that name, with the embedding read from the saved file, unless a later file derives the same name. |
| SessionPipeline.ChooseDevice | Mute-Voce-main/LiveVoiceAutoZoom/LiveVoiceAutoZoom/scripts/live_zoom_record_and_analyze.py:195-201 | Precedence is `--choose-device`, then `--device-index` (unchecked), then the strict name search. A given name succeeds iff some capable device matches it. |
| SessionPipeline.StartSession | Mute-Voce-main/LiveVoiceAutoZoom/LiveVoiceAutoZoom/scripts/live_zoom_record_and_analyze.py:185-201 | `--list-devices` lists and exits before any directory is created or any device chosen. Otherwise the four directories are created, then the device is chosen. |
| SessionPipeline.NClusters | Mute-Voce-main/LiveVoiceAutoZoom/LiveVoiceAutoZoom/scripts/live_zoom_record_and_analyze.py:125 | The cluster count lies in 1..5 and never exceeds a non-zero number of partials. It equals 5 iff there are at least 5 partials, and equals the partial count below 5 (1 for none). |
| SessionPipeline.SortedLabels | Mute-Voce-main/LiveVoiceAutoZoom/LiveVoiceAutoZoom/scripts/live_zoom_record_and_analyze.py:128 | `sorted(set(labels))` is strictly ascending and holds exactly the labels that occur. |
| SessionPipeline.SpeakerCount | Mute-Voce-main/LiveVoiceAutoZoom/LiveVoiceAutoZoom/scripts/live_zoom_record_and_analyze.py:128-139 | `len(set(labels))` equals the number of distinct labels iterated. |
| SessionPipeline.SpeakerFileForm | Mute-Voce-main/LiveVoiceAutoZoom/LiveVoiceAutoZoom/scripts/live_zoom_record_and_analyze.py:130-132 | For a session id without '/', the recorded base name is `voiceprint_<id>_speaker<label+1>.npy`. |
| SessionPipeline.SpeakerFilesOf | Mute-Voce-main/LiveVoiceAutoZoom/LiveVoiceAutoZoom/scripts/live_zoom_record_and_analyze.py:128-132 | One speaker file per label, in label order. |
| SessionPipeline.WriteSpeakerFiles | Mute-Voce-main/LiveVoiceAutoZoom/LiveVoiceAutoZoom/scripts/live_zoom_record_and_analyze.py:127-132 | The loop records one base name per distinct label, in ascending label order. |
| SessionPipeline.SpeakerFileInjective | Mute-Voce-main/LiveVoiceAutoZoom/LiveVoiceAutoZoom/scripts/live_zoom_record_and_analyze.py:130 | Different labels give different file names. |
| SessionPipeline.SpeakerFilesDistinct | Mute-Voce-main/LiveVoiceAutoZoom/LiveVoiceAutoZoom/scripts/live_zoom_record_and_analyze.py:128-132 | A session never writes two speakers to the same file. |
| SessionPipeline.Summary | Mute-Voce-main/LiveVoiceAutoZoom/LiveVoiceAutoZoom/scripts/live_zoom_record_and_analyze.py:139 | The row holds the session id and the number of distinct labels. Splitting its ";"-joined file list gives the files back when none contains ';'. |
| SessionPipeline.SummaryCountsFiles | Mute-Voce-main/LiveVoiceAutoZoom/LiveVoiceAutoZoom/scripts/live_zoom_record_and_analyze.py:125-139 | The summary's speaker count equals the number of speaker files written. |
| SessionPipeline.CsvLogs.Append | Mute-Voce-main/LiveVoiceAutoZoom/LiveVoiceAutoZoom/scripts/live_zoom_record_and_analyze.py:134-139 | A new file gets the header and then the row. An existing file gets only the row appended. |
| SessionPipeline.CsvLogs.AppendTwice | Mute-Voce-main/LiveVoiceAutoZoom/LiveVoiceAutoZoom/scripts/live_zoom_record_and_analyze.py:116-121 | Two appends to a new log give exactly one header followed by both rows. |
| SessionPipeline.MatchesOf | Mute-Voce-main/LiveVoiceAutoZoom/LiveVoiceAutoZoom/scripts/live_zoom_record_and_analyze.py:144-152 | Each reported match is a listed ".npy" file not containing the session id, with similarity strictly above 0.75. |
| SessionPipeline.MatchesComplete | Mute-Voce-main/LiveVoiceAutoZoom/LiveVoiceAutoZoom/scripts/live_zoom_record_and_analyze.py:146-151 | Every considered file with similarity above 0.75 is reported. |
| SessionPipeline.CompareWithExisting | Mute-Voce-main/LiveVoiceAutoZoom/LiveVoiceAutoZoom/scripts/live_zoom_record_and_analyze.py:144-152 | The loop's match log is exactly the specified matches, one per matching file, in listing order. |
| SessionPipeline.OwnFilesSkipped | Mute-Voce-main/LiveVoiceAutoZoom/LiveVoiceAutoZoom/scripts/live_zoom_record_and_analyze.py:147 | Neither the session's own voiceprint nor its speaker files are ever compared with it. |
| Text.Lower | Mute-Voce-main/LiveVoiceAutoZoom/LiveVoiceAutoZoom/scripts/recorder.py:23 | `lower()` keeps the length and leaves no upper-case letter. |
| Text.Contains | Mute-Voce-main/LiveVoiceAutoZoom/LiveVoiceAutoZoom/scripts/recorder.py:23 | Python's substring `in` holds iff the needle occurs at some position. |
| Text.RemoveAllAbsent | Mute-Voce-main/LiveVoiceAutoZoom/LiveVoiceAutoZoom/scripts/scripts/speaker_recognition.py:23 | `replace(pat, "")` leaves a text without `pat` unchanged. |
| Text.RemoveAllAppended | Mute-Voce-main/LiveVoiceAutoZoom/LiveVoiceAutoZoom/scripts/scripts/speaker_recognition.py:23 | In `replace(pat, "")` with a self-overlap-free `pat`, a text free of `pat` followed by `pat` is kept and the `pat` is deleted. Removal then carries on in the rest. |
| Text.AfterLast | Mute-Voce-main/LFN_Docker_Toolkit_Extended/LFN_Docker_Toolkit_Extended/lfn_batch_file_analyzer.py:71 | `split(sep)[-1]` is a separator-free suffix. It is the whole text when the text has no separator; otherwise it is preceded by the separator. |
| Text.NatToString | Mute-Voce-main/LiveVoiceAutoZoom/LiveVoiceAutoZoom/scripts/live_zoom_record_and_analyze.py:130 | `str(n)` is a non-empty run of decimal digits with no leading zero. |
| Text.NatToStringInjective | Mute-Voce-main/LiveVoiceAutoZoom/LiveVoiceAutoZoom/scripts/live_zoom_record_and_analyze.py:130 | Different numbers print differently. |
| Text.SplitJoin | Mute-Voce-main/LiveVoiceAutoZoom/LiveVoiceAutoZoom/scripts/live_zoom_record_and_analyze.py:139 | Joining separator-free parts and splitting again gives the parts back. |
| Paths.Join | Mute-Voce-main/LFN_Docker_Toolkit_Extended/LFN_Docker_Toolkit_Extended/lfn_batch_file_analyzer.py:73 | `os.path.join(a, b)` ends with `b`. |
| Paths.Basename | Mute-Voce-main/LiveVoiceAutoZoom/LiveVoiceAutoZoom/scripts/live_zoom_record_and_analyze.py:132 | `basename` is a '/'-free suffix of the path. |
| Paths.BasenameJoin | Mute-Voce-main/LiveVoiceAutoZoom/LiveVoiceAutoZoom/scripts/live_zoom_record_and_analyze.py:132 | A '/'-free name joined onto a directory is that path's base name. |
| Paths.JoinFlat | Mute-Voce-main/LFN_Docker_Toolkit_Extended/LFN_Docker_Toolkit_Extended/lfn_batch_file_analyzer.py:73 | A relative name without '/' joined onto a directory not ending in '/' gets exactly one '/' between them. |
| Paths.SplitExt | Mute-Voce-main/LFN_Docker_Toolkit_Extended/LFN_Docker_Toolkit_Extended/lfn_batch_file_analyzer.py:74 | Root plus extension is the path. The extension is empty or a single dot-led, dot-free, '/'-free suffix. |
| Paths.SplitExtRoot | Mute-Voce-main/LFN_Docker_Toolkit_Extended/LFN_Docker_Toolkit_Extended/lfn_batch_file_analyzer.py:74 | The root is a prefix of the path and holds no '/' when the path holds none. |

## Left out

- Audio I/O is not modelled: `sd.InputStream`, `sd.rec`/`sd.wait`, `sf.read`/`sf.write`/`SoundFile`, and the bodies of `record_audio`/`save_audio`. Captured audio is an input sequence, and reading a file plus computing its dB spectrogram is the parameter `spectrumAt`/`spectrumOf`.
- Threads and concurrency are not modelled. The LFN worker, the transcription threads and the global queues are sequential state; the number of LFN workers started is counted, but they do not run concurrently.
- Wall-clock time (`time.time()`, `time.sleep`, the session id's `strftime`) enters as parameters.
- Floating-point arithmetic is not modelled. Samples and dB values are reals, and normalisation is exact real division.
- `LfnBatch.AnalyzeAudio`: the row values are not rounded to two decimals as `round(float(x), 2)` does.
- `VadEnhancer.EnhanceAudio` and `VadEnhancer.EnhanceWithBoost` do not model float32 rounding.
- The spectrogram (`scipy.signal.spectrogram`, `10*log10(Sxx+1e-10)`), the stereo mean, the Butterworth filter, `webrtcvad` (including its own sample-rate and frame-length limits), VoiceEncoder, KMeans, the cosine distance and `np.inner` are parameters. Only the length-preserving property of the band-pass filter is assumed.
- Persistence is not modelled: sqlite inserts become a log sequence, `np.save`/`np.load` become a `load` function, and CSV writing becomes a map of line lists. pandas' CSV formatting, the ffmpeg subprocess (only its source/target pair is kept) and all plotting are left out.
- The fingerprint CSV row's measured fields (mean pitch, spectral centroid) and the session log file's text are not modelled. `SessionPipeline.CsvLogs.Append` models only the header-on-creation rule that both CSV logs follow.
- `Text.Lower` lower-cases ASCII letters only. Python's full Unicode case mapping is not modelled.
- The record-and-analyze script imports `list_input_devices` and `select_input_device` from the `recorder` module beside it, which does not define them. As written, that import fails before any rule runs. `SessionPipeline.ChooseDevice` models the evident intent with the listing/menu of `scripts/scripts/recorder.py` and the strict `find_input_device`.
- The stray ` main` line in `scripts/scripts/recorder.py` makes that module fail to parse as written. Its functions are modelled as written, with the later definitions taken as the ones in effect.
- `LfnMonitor.Monitor.RecordPass`: a log row's `datetime.now()` timestamp is not modelled. A row holds only the two band peaks.
- The LFN monitor's `__main__` loop (reading ENTER presses, parsing the device index, `init_db`) and its plotting are not modelled. Each press is one `Toggle` call.
- The live transcriber's `--list-devices` branch, its model loading and the exception path around transcription (printing a traceback) are not modelled. An empty chunk is reported as the `Failed` outcome.
- `SpeakerRecognition.SaveThenLoad` requires a name with neither ".npy" nor '/'. Names with ".npy" inside do not load back under the same name, because every occurrence is removed, as `SpeakerRecognition.NameOfStrips` states.
- `cluster_unknown_embeddings` and the per-speaker mean embedding are not modelled. The labels KMeans returns are an input.
