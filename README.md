# Wave video analyser: signal-extraction core

This project models the signal-extraction core of a wave-video analyser. The analyser
samples the mean brightness of a fixed strip of every video frame and keeps the
samples in a rolling window of 128. Once the window is full, it estimates the dominant
oscillation frequency in three bands (low 0.1–0.5 Hz, mid 0.5–2.0 Hz, high 2.0–5.0 Hz).
Each estimate is the magnitude-weighted mean frequency (centroid) of the spectrum bins
inside the band.

- `wave_analysis.dfy`, module `WaveAnalysis` (models `wave_analysis.py`). Pure functions
  and lemmas for:
  - DC removal;
  - the real-FFT bin grid;
  - closed-interval band selection;
  - the zero-guarded centroid, `CentroidBand` (the inner `centroid_band`);
  - `analyze_frequencies`, which combines them.

  The DFT is not modelled. Its magnitude spectrum is a function parameter `absRfft`.
  Its value on the de-meaned window must have `N/2+1` non-negative entries, which
  `np.abs(rfft(...))` guarantees.
- `main_loop.dfy`, module `MainLoop` (models `main.py`). The class `Session` holds the
  state the driving loop carries from frame to frame:
  - the intensity window, a `seq<real>` that `Push` reassigns;
  - whether a previous frame exists.

  `Step` is one pass of the loop body: push the sample, then take the analysis or the
  start-up branch. `Run` is the loop itself, over a finite stream of samples. The
  value-level functions `Pushed`, `PushedAll`, `Gate` and `ProgressPercent` specify
  these methods, and the lemmas are stated about those functions.

Samples, frequencies and magnitudes are `real`, not IEEE doubles. A frame is reduced to
its strip mean, which can be any real. The previous frame is reduced to a boolean
saying that one exists.

Two facts about the code that the model makes explicit:
- The bands are closed at both ends: wave_analysis.py:20 selects `xf >= fmin` and
  `xf <= fmax`. `SharedEdgeCountedTwice` proves that a bin at exactly 0.5 Hz or
  2.0 Hz counts in both neighbouring bands.
- main.py:32 tests `len >= max_len`. `GateWithinCapacity` proves that this test acts
  as `len == 128` while the window stays within capacity.

## Model

| member | source | states |
|---|---|---|
| `WaveAnalysis.DeMean` | wave_analysis.py:14 | The de-meaned signal has the window's length, and its samples sum to exactly 0. |
| `WaveAnalysis.ConstantWindowDeMeansToZero` | wave_analysis.py:14 | A constant window de-means to the all-zero signal. |
| `WaveAnalysis.BinFrequencies` | wave_analysis.py:15-17 | The rfftfreq grid for N samples at fps has N/2+1 bins (integer division). It starts at 0 Hz and steps by exactly fps/N. It is strictly ascending, and every bin lies in [0, fps/2]. |
| `WaveAnalysis.CentroidOfSilentBand` | wave_analysis.py:20-27 | If every selected bin has magnitude 0, the centroid is 0.0. This includes the case of no bin in [fmin, fmax]. With non-negative magnitudes, `BandMassZeroIff` shows this is the same as the selected magnitudes summing to 0. |
| `WaveAnalysis.CentroidOfNonPositiveMass` | wave_analysis.py:24-27 | If the selected magnitudes sum to 0 or less, the centroid is 0.0 and the division is never reached. No sign assumption on the magnitudes is needed. |
| `WaveAnalysis.BandMassZeroIff` | wave_analysis.py:20-24 | With non-negative magnitudes, the selected magnitudes sum to 0 exactly when each of them is 0. |
| `WaveAnalysis.CentroidBetween` | wave_analysis.py:20-27 | Suppose every selected bin with positive magnitude has its frequency in [lo, hi]. Then the centroid lies in [lo, hi] when the band's magnitude total is positive, and is 0.0 otherwise. |
| `WaveAnalysis.CentroidWithinBand` | wave_analysis.py:19-27 | With non-negative magnitudes, a band's centroid is either 0.0 or a frequency inside [fmin, fmax]. |
| `WaveAnalysis.CentroidNonNegative` | wave_analysis.py:16-26 | Non-negative bin frequencies and magnitudes give a centroid of at least 0. |
| `WaveAnalysis.CentroidOfSingleBin` | wave_analysis.py:20-26 | If all of a band's energy is in one selected bin, the centroid is exactly that bin's frequency. |
| `WaveAnalysis.CentroidPositiveIff` | wave_analysis.py:20-27 | With non-negative frequencies and magnitudes, the centroid is positive exactly when some selected bin has both a positive frequency and a positive magnitude. |
| `WaveAnalysis.AnalyzeFrequencies` | wave_analysis.py:13-35 | The result's xf is the bin grid for the window and fps. Its yf is the magnitude spectrum of the de-meaned window, and xf and yf both have N/2+1 entries. Each of the low, mid and high centroids is at least 0, and is either 0.0 or inside its own band. |
| `WaveAnalysis.ConstantWindowIsSilent` | wave_analysis.py:14-32 | A constant window gives an all-zero spectrum and low = mid = high = 0.0. This holds for any transform that maps the zero signal to the zero spectrum. |
| `WaveAnalysis.SharedEdgeCountedTwice` | wave_analysis.py:20-32 | The bands are closed at both ends. If all energy is in one bin at exactly 0.5 Hz, the low and mid centroids are both 0.5. If it is at 2.0 Hz, the mid and high centroids are both 2.0. |
| `MainLoop.Pushed` | main.py:28-30 | A push puts the new sample last. Below capacity it only appends. At or above capacity the length does not change, because exactly the oldest sample is dropped. |
| `MainLoop.PushedKeepsOrder` | main.py:28-30 | The samples a push keeps are the most recent ones of the old window, in their original order, ahead of the new sample. |
| `MainLoop.PushedAllKeepsLast` | main.py:28-30 | Pushing a stream onto a window within capacity leaves the last 128 samples of the window followed by the stream. |
| `MainLoop.FreshWindowHoldsLastSamples` | main.py:16-30 | Starting from an empty window, after k pushes the window holds exactly the last min(k, 128) samples in acquisition order. |
| `MainLoop.ProgressPercent` | main.py:50-51 | int(len / max_len * 100) equals the integer quotient len * 100 / 128. It lies in [0, 99] while the window is not full. |
| `MainLoop.GateWithinCapacity` | main.py:29-51 | Within capacity, analysis runs exactly when a previous frame exists and the window holds exactly 128 samples, so the `>=` test behaves as `==`. The start-up branch runs exactly when the window is not full, and its percentage is in [0, 99]. Neither branch runs only when there is no previous frame and the window is full. The branches exclude each other. |
| `MainLoop.FreshSchedule` | main.py:16-51 | From a fresh start, frames 0..126 show the start-up message with (i+1)*100/128 percent. From frame 127 on, every frame analyses exactly the 128 most recent samples. |
| `MainLoop.Session.constructor` | main.py:15-17 | The session starts with an empty window and no previous frame. |
| `MainLoop.Session.Push` | main.py:28-30 | The window becomes `Pushed` of the old window. The length bound (at most 128) is preserved, and the previous-frame flag is unchanged. |
| `MainLoop.Session.Step` | main.py:26-54 | One loop pass: the window is pushed, the outcome is `Gate` of the previous-frame flag and the new window, the bound is kept, and afterwards a previous frame exists. |
| `MainLoop.Session.Run` | main.py:19-54 | Running over a stream keeps the bound. The final window is the last 128 of the old window followed by the stream. Frame i's outcome is the gate applied to the window after the first i+1 pushes. |

## Left out

- `analyze_direction` (wave_analysis.py:6-11): dense optical flow and the polar conversion run inside OpenCV and are not part of this model. When no pixel passes the `mag > 1.0` mask, the function returns NaN, which real numbers cannot express. `FrameOutcome.Analyze` marks the frames on which it runs.
- The real FFT itself (wave_analysis.py:16) is floating-point numerics in a library. Its magnitudes are the parameter `absRfft`. Only the properties the model needs are required of it: one non-negative entry per bin; for the constant-window lemma, zero in gives zero out.
- Floating point: samples, frequencies, magnitudes and band edges are exact reals. The model does not capture rounding in the mean, in k·fps/N, in the weighted sums or in the band edges 0.1, 0.5, 2.0 and 5.0. A bin that in doubles falls just outside an edge may be inside it here, and the reverse. For `ProgressPercent` the doubles computation is exact, because len/128·100 = 25·len/32 is representable.
- `WaveAnalysis.AnalyzeFrequencies`: requires a non-empty window and fps > 0. The only call site passes a full 128-sample window. The fps comes from the capture device or the fallback 30, never 0. Negative frame rates are not modelled.
- `scipy.signal.find_peaks` is imported by wave_analysis.py but never used.
- main.py I/O is not modelled: video capture, `resize`, `imshow`, the printed frame rate, the fps fallback (main.py:13) and the frame delay (main.py:57). The strip mean `roi.mean()` (main.py:26-27) is the per-frame sample, which can be any real.
- The keyboard handling (main.py:55-72) is not modelled: quit, pause, step and the two display toggles. A run ends when the stream of samples ends.
- Sending the results (`send_wave_data`, osc_sender.py) and drawing the overlay (`render_spectrum_overlay`, spectrum_plot.py) are output only and are not part of this model. `FrameOutcome.Analyze` carries the window they are computed from.
- video_capture.py (frame reading and colour conversion) is not part of this model.
