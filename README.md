# Video annotations to a per-frame detection dataset, in Dafny

This project models `Extract_dataset_Yolov8` in `PrepareData.py`. The function turns a video
dataset into train and val image and label files for a single-class detector. It takes an
annotation file that lists, for each video, tracks of per-frame bounding boxes.

For each video, the source does the following:

- It checks that the video file exists and opens. If either check fails, it counts a video error
  and skips the video.
- It keeps every seventh box of every track, by list position, and collects them into one list
  (`all_frames`).
- It re-seeds the random generator with 42 and shuffles that list.
- It cuts the list at `int(len * split)`: the prefix is train and the suffix is val.
- For each selected box it decodes the frame. On success it writes a label and an image under the
  split's running counter, then increments the counter. On failure it counts a frame error.

The model is split into four modules:

- `Boxes` (`boxes.dfy`): the annotation entities (`FrameBox`, `Track`, `VideoRecord`) and the
  normaliser (`Normalize`). The normaliser turns pixel corners into centre, width and height,
  clamps each value to [0,1] on its own, and always sets class 0. It works over `real`.
- `Sampling` (`sampling.dfy`): `Sample` is Python's `s[::k]` and `AllFrames` concatenates the
  sampled tracks. `CollectFrames` models the source's nested append loops and is proved equal to
  `AllFrames` with stride 7.
- `Partitioner` (`partition.dfy`): the shuffle and the cut.
  - The shuffle is `random.shuffle`'s Fisher-Yates loop, driven by a draw oracle `draw(n, i)`.
    The oracle stands for the index `randbelow(i + 1)` returns at position `i` of a list of
    length `n` right after `random.seed(42)`. Because the seed is reset for every video, the draws
    depend on `n` and `i` only.
  - `Trunc` is Python's `int()`, which truncates toward zero, and `SliceBound` is Python's slice
    clipping. So the cut is modelled for every ratio, including a negative one or one above 1.
- `Extract` (`extract.dfy`): the per-frame, per-split, per-video and whole-run steps.
  - The steps are specification functions (`FrameStep`, `SplitStep`, `VideoStep`, `Run`) over a
    `Progress` value. `Progress` holds the four counters and the log of written samples. Each log
    `Record` stands for one label file and one image file: split, id, label, video path and frame
    number.
  - The source's loops are methods proved equal to these functions: `ProcessSplit` (the train
    loop and the identical val loop), `ProcessVideo` (the body of the video loop) and
    `ExtractDataset` (the whole function).
  - Lemmas prove the accounting equations and that ids stay dense within each split.

The outside world is an `Env` value of oracles:

- whether the path exists;
- whether the capture opens;
- the frame width and height, as positive integers;
- whether a frame decodes, as a function of the video path and the frame number;
- the shuffle draws.

The video path is built from the video id as in the source: `train/samples/<id>/drone_video.mp4`.
The model accepts any ratio, as the code does. Malformed records and the unguarded percentage
line are outside the model (see Left out).

## Model

| member | source | states |
|---|---|---|
| `Boxes.RawLabel` | PrepareData.py:94-102 | the unclamped centre and size ratios of lines 94-97 divided by the frame size as on lines 99-102; its properties are stated by `Boxes.Normalize`, `Boxes.NormalizeInsideFrame` and `Boxes.NormalizeInverted` |
| `Sampling.Sample` | PrepareData.py:73 | `s[::k]`, written recursively; its contract is `Sampling.SampleSpec` |
| `Sampling.AllFrames` | PrepareData.py:69-74 | the sampled boxes of every track, track after track; its length is given by `Sampling.AllFramesLength`, and `Sampling.CollectFrames` is proved equal to it |
| `Partitioner.ShuffleDown` | PrepareData.py:77-78 | the Fisher-Yates swaps of `random.shuffle` from position i−1 down to 1; its properties are `Partitioner.ShufflePermutes` and `Partitioner.ShuffleByLength` |
| `Partitioner.Shuffled` | PrepareData.py:77-78 | `random.seed(42); random.shuffle(s)`; its properties are `Partitioner.ShufflePermutes` and `Partitioner.ShuffleByLength` |
| `Extract.VideoPath` | PrepareData.py:42 | the video path `train/samples/<id>/drone_video.mp4`; no contract of its own |
| `Extract.Opens` | PrepareData.py:44-63 | the existence check (line 44) and the open check (lines 54-55) together; its effect is stated by `Extract.VideoStepCounters` |
| `Extract.FrameStep` | PrepareData.py:86-143 | one selected frame of either split loop; its contract is `Extract.FrameStepIds` |
| `Extract.SplitStep` | PrepareData.py:86-143 | the train loop (lines 86-113) or the val loop (lines 116-143); its contracts are `Extract.SplitStepCounters`, `Extract.SplitStepIds`, `Extract.SplitStepOtherIds`, `Extract.SplitStepLabels` and `Extract.SplitStepDense` |
| `Extract.VideoStep` | PrepareData.py:44-143 | one video; its contracts are `Extract.VideoStepCounters` and `Extract.VideoStepKeeps` |
| `Extract.Run` | PrepareData.py:33-153 | the whole video loop from zero counters; its contracts are `Extract.RunAccounting` and `Extract.RunDense` |
| `Boxes.Clamp01` | PrepareData.py:99-102 | the result lies in [0,1]; it equals the input exactly when the input lies in [0,1]; below 0 it is 0 and above 1 it is 1 |
| `Boxes.Normalize` | PrepareData.py:94-102 | the label has class 0 and all four values in [0,1]; each value equals its unclamped ratio (centre / width or height, size / width or height) exactly when that ratio lies in [0,1] |
| `Boxes.NormalizeInsideFrame` | PrepareData.py:94-102 | a box with ordered corners inside the frame is written as its unclamped ratios: clamping never changes it |
| `Boxes.NormalizeInverted` | PrepareData.py:94-102 | inverted corners give a written width or height of 0, never an error or a negative value |
| `Sampling.SampleSpec` | PrepareData.py:73 | `s[::k]` has ceil(len(s)/k) elements; its t-th element is the box at position t·k; it is empty exactly when the track is empty |
| `Sampling.SampleOfTwentyOne` | PrepareData.py:73 | a 21-box track keeps exactly the boxes at positions 0, 7 and 14, in that order |
| `Sampling.AllFramesLength` | PrepareData.py:69-74 | the length of `all_frames` is the sum over tracks of ceil(len(bboxes)/7) |
| `Sampling.CollectFrames` | PrepareData.py:69-74 | the nested loops produce `AllFrames(tracks, 7)`: the sampled boxes of every track, tracks in order |
| `Partitioner.ShufflePermutes` | PrepareData.py:77-78 | the shuffled list has the same length and the same multiset of boxes as the input |
| `Partitioner.ShuffleByLength` | PrepareData.py:77-78 | the shuffle depends only on the list length: every list of length n is rearranged by one fixed permutation `ShuffleOrder(n)` of 0..n−1 |
| `Partitioner.Trunc` | PrepareData.py:81 | `int(x)` is the integer next to x toward zero: within 1 of x and not farther from 0 |
| `Partitioner.SliceBound` | PrepareData.py:82-83 | a slice bound in 0..n is kept as is; a negative bound counts from the end; the result is clipped to 0..n |
| `Partitioner.SplitIndex` | PrepareData.py:81 | the cut index is at most n; it is floor(n·split) for a ratio in [0,1] and n for a ratio of 1 or more |
| `Partitioner.Partition` | PrepareData.py:81-83 | train ++ val is the shuffled list; train has SplitIndex(n, split) elements, which is floor(n·split) for a ratio in [0,1], and val has the rest; a ratio ≥ 1 gives an empty val; n = 0 gives two empty lists |
| `Partitioner.PartitionCovers` | PrepareData.py:77-83 | after the shuffle and the cut, train and val together hold exactly the multiset of `all_frames`: no box is lost or duplicated |
| `Partitioner.FourteenAtDefaultSplit` | PrepareData.py:81-83 | 14 candidates at the ratio 0.8 give 11 train and 3 val boxes |
| `Extract.SplitStepCounters` | PrepareData.py:86-113 | one split's frames raise that split's counter by the number that decode and `error_frame` by the number that fail; the other split's counter and `error_video` do not change; the log only grows, by one record per decoded frame |
| `Extract.FrameStepIds` | PrepareData.py:104-113 | one frame appends the split's current counter to that split's ids if it decodes and nothing otherwise; the other split's ids do not change |
| `Extract.SplitStepIds` | PrepareData.py:104-111 | one split's frames append the next Decoded(frames) consecutive ids, starting at the counter, to that split's ids, with no gap for failed frames |
| `Extract.SplitStepOtherIds` | PrepareData.py:134-141 | one split's frames leave the other split's ids unchanged |
| `Extract.SplitStepLabels` | PrepareData.py:99-108 | every label a split writes has class 0 and values in [0,1] |
| `Extract.SplitStepDense` | PrepareData.py:104-141 | if each split's ids are 0..count−1 before a split's frames, they still are afterwards |
| `Extract.VideoStepCounters` | PrepareData.py:44-143 | a missing or unopenable video adds exactly 1 to `error_video` and changes nothing else. A video that opens leaves `error_video` alone, adds its decodable train frames to `train_count` and its decodable val frames to `val_count`, and adds exactly len(all_frames) to train + val + `error_frame` |
| `Extract.VideoStepKeeps` | PrepareData.py:86-143 | one video keeps each split's ids equal to 0..count−1 and every written label normalised |
| `Extract.RunAccounting` | PrepareData.py:33-153 | after the run, `error_video` is the number of videos that do not open; train + val + `error_frame` is the number of boxes sampled from the videos that open; the log holds train + val records |
| `Extract.RunDense` | PrepareData.py:33-153 | after any prefix of the videos, the ids in each split are exactly 0..count−1 in write order, because ids are never reset between videos; every label is normalised |
| `Extract.ProcessSplit` | PrepareData.py:86-143 | the frame loop (used for both train and val) yields exactly `SplitStep` of its frames |
| `Extract.ProcessVideo` | PrepareData.py:41-153 | one video yields exactly `VideoStep`: both failure checks, then seventh-box sampling, the shuffle, the cut and the two split loops |
| `Extract.ExtractDataset` | PrepareData.py:33-153 | the run from zero counters yields `Run(videos)`: `error_video` counts the unopened videos, the counters add up to the sampled total, the train and val ids are exactly 0..count−1, and every label is normalised |

## Left out

- OpenCV calls: `cv2.VideoCapture`, `isOpened`, `cap.get`, `cap.set`, `cap.read`, `cv2.imwrite` and `cap.release`. They are foreign calls and are replaced by the oracles in `Env`. A decode is assumed to depend only on the video path and the frame number. Releasing the handle has no modelled effect.
- Image content: a written image is identified by its video path and frame number only. A failed `cv2.imwrite`, whose result the source ignores, is not modelled.
- JSON parsing of the annotation file: the input is a sequence of `VideoRecord` values. A record with a missing key, which makes the source raise `KeyError` and abort, cannot occur in the model.
- Directory creation and the YAML descriptor (lines 12-30): this is file-system scaffolding. As written, the function raises on every run before it reaches line 33. On a fresh root, line 16 makes `drone.yaml` a directory and line 29's `open(..., "w")` raises `IsADirectoryError`. If `drone.yaml` already exists as a file, line 16 raises `FileExistsError`. The model describes lines 33-153 as if line 16 were absent.
- Label text: the label is the value `Label(0, xc, yc, w, h)` over `real`. The `.6f` formatting, IEEE floating point and the text of the file paths are not modelled.
- Frame size: width and height are positive integers. A video that reports a size of 0, where the source would raise `ZeroDivisionError` on its first decoded frame, is not modelled.
- Split ratio: `split` is a `real`, so `len * split` is exact. Floating-point rounding of that product, which can move `int()` down by one, is not modelled.
- Python's Mersenne Twister and `randbelow`: they are replaced by the draw oracle, which only has to keep each draw within 0..i.
- The tqdm progress bar and the final summary (lines 38, 46-51, 57-62, 146-151, 155-168): these are console output. The percentage on line 167 divides by zero when nothing was written, for example when every video fails to open.
