# Verified models of YOLOv5-Lite and EasyEffects algorithms

A Dafny model of the algorithmic core of two components: the YOLOv5-Lite object detector (network rewriting,
post-processing, target assignment, evaluation, image geometry, the distributed start-up protocol) and two streaming
plugins of EasyEffects (the crystalizer and the noise suppressor). `dafny verify dfyconfig.toml` verifies the project.

Numbers are `real`. A tensor is a shape with row-major data, so `view`, `permute` and `contiguous` are modelled on the
storage they really move. Library primitives have their textbook meaning: convolution with zero padding, batch
normalisation at inference (the square root is a positive `std` with `std * std == variance + eps`), max pooling padded
with minus infinity, greedy suppression, a barrier. A layer or a step that raises gives `None` or an error value.
Activations, squeeze-and-excite, the bandpass filters, the denoising network and all other modules are arbitrary
functions: the theorems hold for every choice of them. Random choices and the clock are parameters.

| file | contents |
|---|---|
| Wrappers, Numbers, Blocks, Sorting, Boxes | options, small arithmetic, cutting streams into blocks, a stable descending sort, boxes and their overlap |
| Tensors, Reshape | row-major tensors; Contract, Expand, channel_shuffle, Focus |
| Convolution, RepVgg, SqueezeExcite, Pooling, Network | convolution and its fusion, RepVGG re-parametrisation and what it discards, SPP/SPPF, whole networks, the save list |
| PixelLaws | what every block does, pixel by pixel, and what a run of layers is |
| Crystalizer, RNNoise | the two streaming plugins, from one loop to whole sessions |
| Suppression, Targets | non-maximum suppression; target assignment and the matching decoder |
| Evaluation, AveragePrecision, Confusion | prediction matching, curves and average precision, the confusion matrix |
| Mosaic, Rectangles | mosaics, rectangular batches, letterboxing, the way of labels |
| ZeroFirst | the rank-0-first barrier protocol as a state machine |

Code that updates state step by step is imperative here too: classes for the model, the two plugins and the confusion
matrix, methods with loops elsewhere. Each is proved equal to a function of its inputs, and the theorems are about that
function, over every input or every run.

## Where the code differs from what one would expect

Each of these is followed as the code has it, and the exact condition under which the expected property holds is proved
in the members named.

- `fuse_conv_and_bn` drops the dilation (`Convolution.FuseExact`); `Model.fuse` drops squeeze-and-excite
  (`SqueezeExcite.DiscardedExcite`).
- The comment beside `Focus` suggests `Contract(2)` as a replacement; the two differ by an exchange of channel blocks
  (`Reshape.FocusEqualsContract`).
- `do_first_rotation` is cleared by band 0 inside the loop over bands, `band_next` is not initialised by the constructor,
  and `setup` resets neither carry, so bands 1 to 12 start a stream from whatever they hold (`Crystalizer.StaleCarry`).
- `init_release` computes the number of hangover frames into a local variable that hides the member of the same name,
  so the release setting restarts the current grace period but the hangover after a voiced frame stays at its initial
  value of two frames (`RNNoise.Plugin.InitRelease`; when that makes no difference: `RNNoise.ReleaseHonoured`).
- The class offset of 4096 pixels separates classes only in images up to that width or height (`Suppression.OffsetExact`).
- A target centre exactly one cell from the border is not assigned to cell 0, although cell 0 could regress it: the
  comparison with 1 is strict (`Targets.RangeExact`).
- `scale_coords` divides columns by the height ratio, and the two ratios differ when the shorter side was truncated
  (`Rectangles.ColumnsSurviveExactly`, `Rectangles.LoadedColumns`).
- The confusion matrix indexes matches as (true, predicted) but unmatched labels as (background, true) and unmatched
  detections as (predicted, background) (`Confusion.OrientationExact`), and it counts unmatched detections only if
  something matched (`Confusion.Growth`).

Two comments are wrong without any effect: those in `metrics.py` lines 150 and 155 exchange false positives and false
negatives, and those in `test.py` lines 188 and 189 exchange the prediction and the target indices.

## Model

| member | source | states |
|---|---|---|
| `Tensors.OffsetUnravel` | YOLOv5-Lite/models/common.py:346-348 | reading the multi-index of a storage position and storing at it again are inverse: position to index and back, for every shape |
| `Tensors.UnravelOffset` | YOLOv5-Lite/models/common.py:346-348 | ... and index to position and back |
| `Tensors.CatAllShape` | YOLOv5-Lite/models/common.py:365-372 | concatenating a list succeeds if and only if it is not empty and its images agree on all but the channels, which add up |
| `Tensors.CatAllPixel` | YOLOv5-Lite/models/common.py:365-372 | the channel map of a concatenation: channel c of tensor i comes after all channels of the tensors before it, and no pixel changes |
| `Reshape.PermuteInverse` | YOLOv5-Lite/models/common.py:347-361 | permuting the axes by p and then by the inverse of p gives the tensor back, for every rank and every p |
| `Reshape.ContractPixel` | YOLOv5-Lite/models/common.py:343-348 | where Contract puts every pixel: phase (i, j) of channel c becomes channel (i * s + j) * C + c |
| `Reshape.ExpandUndoesContract` | YOLOv5-Lite/models/common.py:337-362 | Expand after Contract is the identity for every gain that divides height and width |
| `Reshape.ContractUndoesExpand` | YOLOv5-Lite/models/common.py:337-362 | Contract after Expand is the identity for every gain whose square divides the channel count |
| `Reshape.ShufflePixel` | YOLOv5-Lite/models/common.py:593-606 | where channel_shuffle puts every channel: member j of group i becomes channel j * g + i |
| `Reshape.ShuffleUndone` | YOLOv5-Lite/models/common.py:593-606 | shuffling by g groups and then by C / g groups is the identity |
| `Reshape.FocusPixel` | YOLOv5-Lite/models/common.py:332-333 | channel block b of the Focus input holds row phase b % 2 and column phase b / 2 |
| `Reshape.FocusIsSwappedContract` | YOLOv5-Lite/models/common.py:330-334 | Focus is Contract(2) with channel blocks 1 and 2 exchanged |
| `Reshape.FocusEqualsContract` | YOLOv5-Lite/models/common.py:330-334 | the commented-out replacement of Focus by Contract(2) agrees with Focus on an image if and only if every 2 x 2 cell of the image is symmetric |
| `Convolution.ConvIsTextbook` | YOLOv5-Lite/models/common.py:164 | the flattened dot product used below is the textbook convolution: a sum over the channels of the group and both kernel axes, zero outside the image |
| `Convolution.OutSizeExact` | YOLOv5-Lite/models/common.py:164 | the outputs along an axis are exactly the positions at which the last tap has not left the padded input, for every kernel, stride, padding and dilation |
| `Convolution.FitsExact` | YOLOv5-Lite/models/common.py:164 | an input is long enough exactly when the first position fits |
| `Convolution.GroupExact` | YOLOv5-Lite/models/common.py:164 | output channels are split into as many groups as input channels, and every group reads its own |
| `Convolution.DiagMm` | YOLOv5-Lite/utils/torch_utils.py:193-194 | multiplying the flattened weights by diag(gamma / std) scales filter o by its own ratio and nothing else |
| `Convolution.FusedFilter` | YOLOv5-Lite/utils/torch_utils.py:191-199 | one output of a fused filter with its fused bias is the batch norm of the original output, on every patch |
| `Convolution.FuseCorrect` | YOLOv5-Lite/utils/torch_utils.py:181-201 | a fused layer computes convolution then batch norm on every input, and fails on the same inputs; every stride, padding, group count, bias or none |
| `Convolution.FuseExact` | YOLOv5-Lite/utils/torch_utils.py:183-189 | the fused layer is built without the dilation, so it is equivalent for all inputs if and only if each axis has dilation 1 or a single tap |
| `RepVgg.IdentityKernel` | YOLOv5-Lite/models/common.py:928-931 | the loop that fills the identity kernel yields the filter bank that copies channel i % dim at the centre tap |
| `RepVgg.IdentityTerm` | YOLOv5-Lite/models/common.py:915-941 | the scaled identity kernel picks the own channel of every output out of its group |
| `RepVgg.CombinedFilters` | YOLOv5-Lite/models/common.py:903-913 | the zero-padded 1 x 1 filter added to the 3 x 3 filter responds with the sum of both responses |
| `RepVgg.ReparamCorrect` | YOLOv5-Lite/models/common.py:903-952 | the single convolution built from the equivalent kernel and bias equals dense + 1 x 1 + identity branch on every input, stride and group count, borders included, and fails on the same inputs |
| `SqueezeExcite.DiscardedExcite` | YOLOv5-Lite/models/yolo.py:295 | fuse deletes squeeze-and-excite; that preserves the block before its activation on all inputs if and only if the equivalent kernel and bias are all zero |
| `SqueezeExcite.NonzeroAnswer` | YOLOv5-Lite/models/yolo.py:295 | for a kernel or bias that is not zero, a concrete input and output position where the answer is not zero |
| `SqueezeExcite.DiscardedExciteActivated` | YOLOv5-Lite/models/yolo.py:295-296 | after any activation strictly increasing above 0 (SiLU included) the block is preserved on all inputs if and only if all filters are zero, no bias is positive, and for each channel the activation does not tell the bias from the bias times the gate of the pooled biases; for an activation constant up to 0 the last condition always holds |
| `SqueezeExcite.MeanIsAverage` | YOLOv5-Lite/models/common.py:859 | the pooled value of a channel is the average of its pixels over the square that pooling covers |
| `Pooling.WindowMaxIsMax` | YOLOv5-Lite/models/common.py:301 | the pooled value bounds its window and is attained in it |
| `Pooling.PoolCompose` | YOLOv5-Lite/models/common.py:315-323 | pooling with radius a and then b is pooling with radius a + b, for every height and width |
| `Pooling.ChainIsPyramid` | YOLOv5-Lite/models/common.py:310-323 | the four maps of SPPF(k) are the four maps of SPP(k, 2k - 1, 3k - 2), for every odd k and every image |
| `Network.SppfIsSpp` | YOLOv5-Lite/models/common.py:294-323 | the whole layers agree too: SPPF(k) computes what SPP(k, 2k - 1, 3k - 2) computes around the same convolutions, failures included |
| `PixelLaws.ConvUnitLaw` | YOLOv5-Lite/models/common.py:170-171 | Conv (and CBH) answers r if and only if the input is accepted and every pixel of r is the activation of the batch norm of the convolution there |
| `PixelLaws.RepLaw` | YOLOv5-Lite/models/common.py:943-952 | RepVGGBlock answers r if and only if r is the activation, pixel by pixel, of the (excited) sum of the normalised dense, 1 x 1 and identity branches |
| `PixelLaws.RepFusedLaw` | YOLOv5-Lite/models/common.py:954-955 | ... and after fusing, of the one convolution |
| `PixelLaws.ShuffleKeepLaw` | YOLOv5-Lite/models/common.py:658-668 | Shuffle_Block with stride 1 answers r if and only if r alternates the channels of the lower half of the input with those of the branch of its upper half |
| `PixelLaws.ShuffleKeeps` | YOLOv5-Lite/models/common.py:634-668 | output channel 2c is input channel c; output channel 2c + 1 is ReLU of three normalised convolutions, the first with ReLU, of the upper half |
| `PixelLaws.ShuffleDownLaw` | YOLOv5-Lite/models/common.py:658-668 | with another stride r alternates the channels of the two branches, and nothing else is an answer |
| `PixelLaws.ShuffleHalves` | YOLOv5-Lite/models/common.py:634-668 | output channel 2c is channel c of the first branch and 2c + 1 of the second, both written out in convolutions |
| `PixelLaws.BottleneckLaw` | YOLOv5-Lite/models/common.py:231-232 | Bottleneck answers r if and only if r is the second block of the first, with the input added pixel by pixel when there is a shortcut |
| `PixelLaws.C3Law` | YOLOv5-Lite/models/common.py:266-267 | C3 answers r if and only if cv3 answers it on the channels of m after cv1 followed by those of cv2 |
| `PixelLaws.PipelineLaw` | YOLOv5-Lite/models/yolo.py:420 | a sequence of repeats answers r if and only if a chain of tensors leads from the input to r, one block per step |
| `PixelLaws.SppLaw` | YOLOv5-Lite/models/common.py:303-306 | SPP is cv2 on the input of the pools followed by one map per kernel, whose pixels are the largest of their windows |
| `PixelLaws.FocusLaw` | YOLOv5-Lite/models/common.py:332-333 | Focus is its convolution on the four pixel parities, row parity first |
| `PixelLaws.ConcatLaw` | YOLOv5-Lite/models/common.py:371-372 | Concat puts channel c of argument i after the channels of the arguments before it |
| `PixelLaws.RunLaw` | YOLOv5-Lite/models/yolo.py:225-244 | the outputs of a run are exactly the lists in which every layer turns what its indices denote (-1 the previous output, others counted from the start or the end) into its output |
| `PixelLaws.OutputLaw` | YOLOv5-Lite/models/yolo.py:225-244 | the answer of a network is the last of such a list, or the input of a network without layers |
| `Network.FuseUnitExact` | YOLOv5-Lite/models/yolo.py:299-308 | a convolution with its batch norm, as in Conv and CBH, computes the same function fused if and only if it is not dilated; without a batch norm it is left alone |
| `Network.FuseShuffleCorrect` | YOLOv5-Lite/models/yolo.py:310-344 | rebuilding both branches of a Shuffle_Block from fused convolutions preserves it |
| `Network.FuseBlockCorrect` | YOLOv5-Lite/models/yolo.py:269-347 | fusing a block, nested blocks included, preserves its value on every argument, for any activation and any uninterpreted module |
| `Network.FuseLayersCorrect` | YOLOv5-Lite/models/yolo.py:269-347 | every layer output of every fused network equals the original one, errors included |
| `Network.FuseBlock` | YOLOv5-Lite/models/yolo.py:269-347 | after fusing, no batch norm and no RepVGG block in training form is left at any depth |
| `Network.ParseModel` | YOLOv5-Lite/models/yolo.py:381-430 | the collected save list is exactly the set of positions later layers read; layer 0 naming anything but -1 is the ZeroDivisionError, and only that |
| `Network.ReadsSaved` | YOLOv5-Lite/models/yolo.py:425-430 | every index, positive or negative, that a layer can read without an IndexError denotes a saved position |
| `Network.Model.constructor` | YOLOv5-Lite/models/yolo.py:375-430 | a model is a layer list with a save list that covers its reads |
| `Network.Model.Fuse` | YOLOv5-Lite/models/yolo.py:269-347 | the loop fuses every layer, keeps the save list valid, and the network computes the same function as before |
| `Network.Model.ForwardOnce` | YOLOv5-Lite/models/yolo.py:225-244 | running with only the saved outputs never reads a dropped one and returns what running with all outputs kept returns, errors included |
| `Network.ReadInput` | YOLOv5-Lite/models/yolo.py:228-229 | the argument assembled from the sparse outputs is the one assembled from all outputs |
| `Crystalizer.RunIsEnhancedStream` | easyeffects/include/crystalizer.hpp:79-187 | over every run of blocks of any sizes from two up and any schedule of settings, the output of a band is the stream one sample late minus intensity times its central second difference |
| `Crystalizer.RunSample` | easyeffects/include/crystalizer.hpp:132-187 | written out on both channels: with x the stream, sample k is x[k-1] - intensity * (x[k] - 2 x[k-1] + x[k-2]), without the subtraction when bypassed |
| `Crystalizer.CutsAreUnobservable` | easyeffects/include/crystalizer.hpp:79-187 | two ways of cutting the same stream into blocks give the same output |
| `Crystalizer.HarmlessFirst` | easyeffects/include/crystalizer.hpp:99-129 | the first block comes out as from silence if and only if the carry is harmless |
| `Crystalizer.StaleCarry` | easyeffects/include/crystalizer.hpp:99-129 | a run from any carry is the enhanced stream if and only if the kept sample is silent and the older one is silent or unused; only band 0 is reset, so the others depend on this |
| `Crystalizer.RunForgets` | easyeffects/include/crystalizer.hpp:178-186 | a stale carry can only be heard in the first block |
| `Crystalizer.PlayedIsMixedRuns` | easyeffects/include/crystalizer.hpp:79-202 | over a run of rounds from any carries, every sample put out is the sum of the runs of the bands not muted at that sample |
| `Crystalizer.PlayedIsMixedStreams` | easyeffects/include/crystalizer.hpp:79-202 | over a run of rounds from silence, every sample is the sum of the enhanced streams of the bands not muted then |
| `Crystalizer.Plugin.constructor` | easyeffects/src/crystalizer.cpp:34-42 | the constructor silences the older sample of every band but leaves the newer one as memory holds it |
| `Crystalizer.Plugin.Setup` | easyeffects/src/crystalizer.cpp:88-113 | setup chooses the largest power of two not above the call size (0 for a call size of 0), empties buffer and queue, sets the rotation flag, and leaves all carries as they were |
| `Crystalizer.Plugin.EnhancePeaks` | easyeffects/include/crystalizer.hpp:79-202 | one call: the block becomes the output of one round, and every band carries the last two samples of its filtered block |
| `Crystalizer.Plugin.Push` | easyeffects/src/crystalizer.cpp:150-168 | the buffering path: every block that the call completes is enhanced and queued in order, the remainder stays in the buffer |
| `Crystalizer.Plugin.Drain` | easyeffects/src/crystalizer.cpp:170-199 | the output path: what leaves the queue followed by what stays is what was there, and it comes behind zeros; how many leave is stated for every queue and output length |
| `Crystalizer.Plugin.Process` | easyeffects/src/crystalizer.cpp:129-200 | one call of any size, either path: nothing enhanced is lost, repeated or reordered; what goes out behind zeros, followed by the queue, is the old queue followed by what the completed blocks play |
| `Crystalizer.SessionBlocksAreFrames` | easyeffects/src/crystalizer.cpp:150-168 | the blocks that a session enhances are the blocks of the whole stream, however it was cut into calls |
| `Crystalizer.Plugin.Session` | easyeffects/src/crystalizer.cpp:129-200 | any sequence of calls of a fixed size from two samples up, with switches changing in between: all that came out without leading zeros, followed by the queue, is what the blocks of the stream play from the carries the bands start with, and from silence the sum of the enhanced streams |
| `Crystalizer.SilentSession` | easyeffects/include/crystalizer.hpp:79-202 | a session that starts from silence in every band that is not reset plays the sum of the enhanced streams |
| `Crystalizer.Plugin.Split` | easyeffects/include/crystalizer.hpp:80-130 | filter and rotate every band; the flag is cleared by band 0, so only band 0 starts from silence |
| `Crystalizer.Plugin.EnhanceBands` | easyeffects/include/crystalizer.hpp:132-187 | every band becomes its enhanced block and keeps its newest delayed sample |
| `Crystalizer.Plugin.AddBands` | easyeffects/include/crystalizer.hpp:191-201 | every sample becomes the sum of the bands that are not muted |
| `Crystalizer.AllMuted` | easyeffects/include/crystalizer.hpp:191-201 | with every band muted nothing is heard |
| `Crystalizer.MixOpens` | easyeffects/include/crystalizer.hpp:191-201 | opening a muted band adds its sample, on both channels, to whatever is heard |
| `Crystalizer.MutedIsSilent` | easyeffects/include/crystalizer.hpp:191-201 | what a muted band holds has no influence |
| `Crystalizer.OnlyOpen` | easyeffects/include/crystalizer.hpp:191-201 | a band that is open alone is what is heard |
| `Crystalizer.EnhanceBand` | easyeffects/include/crystalizer.hpp:135-186 | one band: enhanced or bypassed, and the sample kept for the next block |
| `Crystalizer.SecondDerivative` | easyeffects/include/crystalizer.hpp:136-165 | second differences with the kept samples as outer neighbours |
| `Crystalizer.SharpenBand` | easyeffects/include/crystalizer.hpp:169-182 | in-place subtraction of the scaled second difference; the sample kept is the one before enhancement |
| `Blocks.FramesConserve` | easyeffects/include/rnnoise.hpp:105-147 | complete frames followed by the remainder are the stream |
| `Blocks.FramesResume` | easyeffects/include/rnnoise.hpp:105-147 | cutting into frames may stop anywhere and resume with the remainder |
| `RNNoise.EmittedResumes` | easyeffects/include/rnnoise.hpp:103-192 | what a channel emits and becomes for s followed by t is what it does for s + t |
| `RNNoise.ChunksDoNotMatter` | easyeffects/include/rnnoise.hpp:103-192 | from wherever a channel stands, any sequence of calls under the same settings leaves it, its buffer and its output as a single call with the whole input would |
| `RNNoise.CallsAreFrames` | easyeffects/include/rnnoise.hpp:103-192 | over any run of calls with settings changing from call to call, every frame of the stream is processed under the settings of the call that completes it |
| `RNNoise.CutsDoNotMatter` | easyeffects/include/rnnoise.hpp:103-192 | two ways of cutting the same input, under the same settings at every sample, are the same run |
| `RNNoise.HangoverExact` | easyeffects/include/rnnoise.hpp:116-131 | another hangover gives the same output in all runs of all networks if and only if it is the one in use or voice detection is off |
| `RNNoise.ReleaseHonoured` | easyeffects/src/rnnoise.cpp:342-353 | the release setting is honoured, in the sense of the row before, if and only if it rounds to the two frames in use or voice detection is off |
| `RNNoise.Conservation` | easyeffects/include/rnnoise.hpp:103-192 | samples emitted plus samples buffered are samples received |
| `RNNoise.CounterCounts` | easyeffects/include/rnnoise.hpp:116-131 | before every frame the hangover counter is the countdown since the last voiced frame, or since the start |
| `RNNoise.GateIsOpen` | easyeffects/include/rnnoise.hpp:116-131 | the gate passes a frame if and only if it or one of the previous `release` frames was voiced, or none was voiced so far and the initial grace covers it |
| `RNNoise.GatedRun` | easyeffects/include/rnnoise.hpp:116-131 | over every run with voice detection: an open frame is the wet/dry mix, any other frame is all zeros |
| `RNNoise.HeardSample` | easyeffects/include/rnnoise.hpp:108-138 | every sample of every run: with voice detection off or in an open frame, wet * network output / 32768 + (1 - wet) * input, the network being in the state that all frames before left it in; in any other frame 0 |
| `RNNoise.ProbIs` | easyeffects/include/rnnoise.hpp:114 | the probability of a frame is what the network reports after the frames before it |
| `RNNoise.NoState` | easyeffects/include/rnnoise.hpp:109-143 | without a network state every frame passes as it is |
| `RNNoise.GraceBound` | easyeffects/include/rnnoise.hpp:116-131 | the counter never falls below -1 unless it starts there |
| `RNNoise.DryRun` | easyeffects/include/rnnoise.hpp:133-137 | with voice detection off and wet ratio 0 every complete frame comes out unchanged |
| `RNNoise.Plugin.constructor` | easyeffects/src/rnnoise.cpp:107-116 | empty buffers, a grace period of two frames on both channels, and a state per channel if one could be created |
| `RNNoise.Plugin.Configure` | easyeffects/src/rnnoise.cpp:82-99 | the switches change, buffers, counters and states carry on |
| `RNNoise.Plugin.InitRelease` | easyeffects/src/rnnoise.cpp:342-353 | the release setting, in frames, goes to both counters; the hangover itself is not changed |
| `RNNoise.Plugin.ChangeModel` | easyeffects/src/rnnoise.cpp:62-75 | another model gives both channels a new state or none, everything else carries on |
| `RNNoise.Plugin.Setup` | easyeffects/src/rnnoise.cpp:138-147 | the buffers are emptied |
| `RNNoise.Plugin.Session` | easyeffects/include/rnnoise.hpp:103-192 | any sequence of calls on the object, with switches changing in between: each channel puts out, keeps and becomes what feeding it those calls gives, independently of the other |
| `RNNoise.Plugin.RemoveNoise` | easyeffects/include/rnnoise.hpp:103-192 | one call: each channel emits the frame-by-frame processing of its buffer and input, keeps less than a frame, and does not depend on the other channel |
| `RNNoise.Denoise` | easyeffects/include/rnnoise.hpp:105-147 | the push-and-flush loop of one channel equals frame-by-frame processing |
| `RNNoise.ProcessFrame` | easyeffects/include/rnnoise.hpp:109-139 | one full buffer: scaled, denoised, gated, mixed, scaled back |
| `RNNoise.MixLoop` | easyeffects/include/rnnoise.hpp:124-128 | the mixing loop |
| `Boxes.OverlapsShift` | YOLOv5-Lite/utils/general.py:401-410 | moving both boxes by the same amount does not change whether their overlap exceeds a threshold |
| `Boxes.ApartDoNotOverlap` | YOLOv5-Lite/utils/general.py:401-410 | boxes that are apart on either axis do not overlap |
| `Boxes.FromCentre` | YOLOv5-Lite/utils/general.py:265-272 | the box has the given centre and size |
| `Boxes.IntersectionIsLargest` | YOLOv5-Lite/utils/general.py:408-409 | no box inside both has a larger area than the intersection |
| `Boxes.IntersectionIsAttained` | YOLOv5-Lite/utils/general.py:408-409 | ... and one has that area, unless the boxes do not meet |
| `Boxes.OverlapsIs` | YOLOv5-Lite/utils/general.py:401-410 | the overlap is the intersection as a share of what the two boxes cover together |
| `Suppression.Nms` | YOLOv5-Lite/utils/general.py:493 | striking out what the best remaining box suppresses computes the greedy selection |
| `Suppression.GreedyDescending` | YOLOv5-Lite/utils/general.py:493 | kept boxes come in descending score order |
| `Suppression.GreedyIndependent` | YOLOv5-Lite/utils/general.py:493 | no kept box suppresses a later kept one |
| `Suppression.GreedyCovers` | YOLOv5-Lite/utils/general.py:493 | every box is kept or suppressed by a kept box of no lower score |
| `Suppression.GreedyUnique` | YOLOv5-Lite/utils/general.py:493 | being independent and covering determines the kept boxes: the greedy selection is the only one |
| `Suppression.GreedyPerClass` | YOLOv5-Lite/utils/general.py:490-493 | a pass that compares only within classes is one independent pass per class |
| `Suppression.OffsetIsPerClass` | YOLOv5-Lite/utils/general.py:490-493 | with the class offset of 4096 the pass keeps, class by class, what suppressing each class alone keeps, when the boxes lie in a window of at most that width or at most that height |
| `Suppression.OffsetExact` | YOLOv5-Lite/utils/general.py:433-493 | the offset is safe for all boxes of a window if and only if the window is at most 4096 wide or at most 4096 high |
| `Suppression.TooWide` | YOLOv5-Lite/utils/general.py:433-493 | in any window larger on both axes a box of class 1 can land on a box of class 0 and be lost |
| `Suppression.PreFilterRedundant` | YOLOv5-Lite/utils/general.py:430-473 | for class scores in [0, 1] the objectness pre-filter does not change the candidates, single or multi label |
| `Suppression.RowCandidatesAre` | YOLOv5-Lite/utils/general.py:461-473 | the candidates of a prediction are exactly: its first best class, or with several labels every class, scoring above the threshold, with the centre and size of the prediction and class score times objectness |
| `Suppression.RowCandidatesDistinct` | YOLOv5-Lite/utils/general.py:468-473 | no class of a prediction is proposed twice |
| `Suppression.LabelProposes` | YOLOv5-Lite/utils/general.py:448-455 | an a-priori label proposes its own box and class with confidence 1 and nothing else |
| `Suppression.ShortlistIs` | YOLOv5-Lite/utils/general.py:446-477 | what reaches the suppression is exactly the proposals of predictions with enough objectness and of labels, in the requested classes |
| `Suppression.SortDescendingSorts` | YOLOv5-Lite/utils/general.py:488 | the sort is descending and keeps every candidate |
| `Suppression.ImageCovers` | YOLOv5-Lite/utils/general.py:443-504 | every candidate of an image is among the best 30000 or scores no higher than they do; each of those is kept or suppressed by a kept one of no lower score; the report is the first 300 kept |
| `Suppression.ImageResultSound` | YOLOv5-Lite/utils/general.py:443-504 | every image reports at most 300 detections, in descending order, above the threshold, of a requested class, none suppressing another; below 300, every candidate among the best 30000 is reported or suppressed by a reported one of no lower score |
| `Suppression.SameClassApart` | YOLOv5-Lite/utils/general.py:490-504 | reported boxes of one class overlap by no more than the threshold |
| `Suppression.ReportPerClass` | YOLOv5-Lite/utils/general.py:490-504 | without class-agnostic suppression, for boxes in a window at most 4096 wide or high, every class of an image is kept as if it had been suppressed alone |
| `Suppression.ReportAgnostic` | YOLOv5-Lite/utils/general.py:490-504 | with class-agnostic suppression no two reported boxes of any classes overlap above the threshold |
| `Suppression.AgnosticDrops` | YOLOv5-Lite/utils/general.py:490-493 | the two settings differ: of two equal boxes of different classes the agnostic one keeps the better, the other both |
| `Suppression.SuppressImage` | YOLOv5-Lite/utils/general.py:446-504 | the body of the image loop computes that report |
| `Suppression.NonMaxSuppression` | YOLOv5-Lite/utils/general.py:421-509 | images before the time limit get their report, images after it nothing; an image without candidates does not look at the clock |
| `Targets.AxisCells` | YOLOv5-Lite/utils/loss.py:171-197 | on one axis the half-cell shifts give exactly the cells whose regression range (-1/2, 3/2) covers the centre, except that a centre on the first grid line, at 1, gets only its own cell |
| `Targets.RangeExact` | YOLOv5-Lite/utils/loss.py:193-194 | the cells that the shifts give on an axis are all the cells in range if and only if the centre is not exactly 1, or the axis has a single cell; the strict comparison leaves out cell 0 there |
| `Targets.CellsExact` | YOLOv5-Lite/utils/loss.py:171-211 | a target is assigned exactly the cells that reach it on one axis, in the sense of the row before, and contain it on the other |
| `Targets.AssignedInside` | YOLOv5-Lite/utils/loss.py:203-212 | every assigned cell is in the grid, with offsets strictly between -1/2 and 3/2; the in-place clamp counts for the offsets too |
| `Targets.MatchedRatio` | YOLOv5-Lite/utils/loss.py:185-188 | for an anchor threshold of at most 4 the size ratios lie strictly between 0 and 4 |
| `Targets.MatchesExact` | YOLOv5-Lite/utils/loss.py:185-188 | a target goes to an anchor if and only if on both axes neither is as much as anchor_t times the other |
| `Targets.DecodeInverts` | YOLOv5-Lite/models/yolo.py:53-55 | a prediction that equals its target decodes to exactly the labelled box in pixels, from any of its cells |
| `Targets.OffsetsAttainable` | YOLOv5-Lite/utils/loss.py:128-131 | the offsets are values that a sigmoid strictly between 0 and 1 can produce |
| `Targets.BuildTargets` | YOLOv5-Lite/utils/loss.py:163-216 | the loop over layers builds the rows of every layer |
| `Targets.Expand` | YOLOv5-Lite/utils/loss.py:190-214 | the five-fold repetition keeps a row per shift taken |
| `Targets.LayerRowsAre` | YOLOv5-Lite/utils/loss.py:177-214 | the rows are exactly the shifted assignments of the targets that match an anchor |
| `Targets.LayerRowsExact` | YOLOv5-Lite/utils/loss.py:177-214 | said without the loops: a row is written if and only if for some target it tells its image, class, size in cells and offset from the cell, its anchor is close in size to the target on both axes, and its cell reaches the target on one axis and contains it on the other |
| `Targets.AnchorAssigned` | YOLOv5-Lite/utils/loss.py:185-188 | a target is written for an anchor if and only if the two are close in size on both axes |
| `Targets.TargetsIndependent` | YOLOv5-Lite/utils/loss.py:163-216 | targets do not influence each other: together they are written the rows each part is written, with multiplicity |
| `Targets.RowsPerTarget` | YOLOv5-Lite/utils/loss.py:188-197 | one target is written once for every anchor that suits it and every shift it takes |
| `Targets.BuiltRowsSound` | YOLOv5-Lite/utils/loss.py:163-216 | every row built tells image and class of a target, indexes its grid and its anchors, and carries attainable targets: size ratios strictly between 1 / anchor_t and anchor_t |
| `Evaluation.MatchClass` | YOLOv5-Lite/test.py:187-205 | the loop of one class, early exit included, credits exactly the first claim on every label |
| `Evaluation.Match` | YOLOv5-Lite/test.py:174-208 | the table of an image is the declarative one, whether or not the loop stops early |
| `Evaluation.NothingLeft` | YOLOv5-Lite/test.py:204-205 | once every label of the image is found no later prediction could have been credited |
| `Evaluation.DownwardClosed` | YOLOv5-Lite/test.py:203 | a row that is correct at a threshold is correct at every lower one |
| `Evaluation.CorrectIs` | YOLOv5-Lite/test.py:187-205 | a prediction is correct at a threshold if and only if the label of its class that overlaps it most does so by more than that threshold, and no earlier prediction with the same best label overlaps it by more than the lowest one |
| `Evaluation.CreditsAreDistinct` | YOLOv5-Lite/test.py:197-203 | no label is credited twice |
| `Evaluation.TruePositivesBounded` | YOLOv5-Lite/test.py:187-203 | a class never has more true positives than labels in an image |
| `Evaluation.TotalsBounded` | YOLOv5-Lite/test.py:208 | ... nor in a dataset |
| `AveragePrecision.CurvesBounded` | YOLOv5-Lite/utils/metrics.py:51-60 | recall is monotone and at most 1, and precision is in [0, 1] |
| `AveragePrecision.CurvePoints` | YOLOv5-Lite/utils/metrics.py:51-60 | recall and precision at i are the correct predictions among the first i + 1, relative to the labels (plus 1e-16) and to i + 1 |
| `AveragePrecision.DatasetCurves` | YOLOv5-Lite/utils/metrics.py:32-60 | so they are for every class, threshold and dataset evaluated as above, in whatever order the scores put the predictions |
| `AveragePrecision.CountIsMultiplicity` | YOLOv5-Lite/utils/metrics.py:33-34 | sorting does not change the number of true positives |
| `AveragePrecision.EnvelopeIsMax` | YOLOv5-Lite/utils/metrics.py:95 | entry i of the envelope is the largest precision from i on |
| `AveragePrecision.EnvelopeIsLeast` | YOLOv5-Lite/utils/metrics.py:95 | the envelope is the least non-increasing curve above the precision curve |
| `AveragePrecision.InterpolateInUnit` | YOLOv5-Lite/utils/metrics.py:101 | interpolation stays in [0, 1] |
| `AveragePrecision.ApInUnit` | YOLOv5-Lite/utils/metrics.py:81-106 | the average precision is in [0, 1] |
| `AveragePrecision.ApIsArea` | YOLOv5-Lite/utils/metrics.py:90-101 | average precision is the area, by the trapezoids of the 101 hundredths, under the polyline through the recalls and the least non-increasing majorant of the precisions, from (0, 1) to 1/100 beyond the last recall |
| `AveragePrecision.KnownArea` | YOLOv5-Lite/utils/metrics.py:90-101 | when the last prediction has precision 1 and recall m / 100, it is (m + 1/2) / 100, whatever dips the precision has before |
| `AveragePrecision.DatasetApInUnit` | YOLOv5-Lite/utils/metrics.py:64-65 | ... for every class and threshold of every dataset |
| `Confusion.PairsAre` | YOLOv5-Lite/utils/metrics.py:130-134 | the candidate pairs are exactly the overlaps above the threshold |
| `Confusion.KeptAre` | YOLOv5-Lite/utils/metrics.py:127 | the detections used are exactly those above the confidence |
| `Confusion.KeptAppend` | YOLOv5-Lite/utils/metrics.py:127 | ... in their order, each as often as it occurs |
| `Confusion.FindMatches` | YOLOv5-Lite/utils/metrics.py:132-141 | the matching is the result of the two sort-and-unique passes, also where they are skipped |
| `Confusion.MatchingIsOneToOne` | YOLOv5-Lite/utils/metrics.py:135-139 | no label and no detection is used twice, however ties are broken |
| `Confusion.MatchingIsMutualBest` | YOLOv5-Lite/utils/metrics.py:135-139 | with distinct overlaps a pair survives if and only if the label is the best of the detection and the detection the best of those preferring the label |
| `Confusion.Growth` | YOLOv5-Lite/utils/metrics.py:143-155 | a batch with M labels, N kept detections and K matches increments M + (N - K) cells if K > 0 and M otherwise |
| `Confusion.MatrixTotal` | YOLOv5-Lite/utils/metrics.py:143-155 | ... all of them inside the matrix: summed over its cells the increments are as many |
| `Confusion.CellsAreMatches` | YOLOv5-Lite/utils/metrics.py:145-148 | cell (a, b) of two classes counts the matches of a label of class a with a detection of class b |
| `Confusion.BackgroundCells` | YOLOv5-Lite/utils/metrics.py:149-155 | cell (background, k) counts the unmatched labels of class k, and (k, background) the unmatched detections of class k if anything matched |
| `Confusion.TurnedSame` | YOLOv5-Lite/utils/metrics.py:145-155 | exchanging the axes of the background entries changes nothing if and only if every class has as many entries (background, k) as (k, background) |
| `Confusion.OrientationExact` | YOLOv5-Lite/utils/metrics.py:145-155 | a batch fills the matrix with true classes on one axis and predicted classes on the other throughout if and only if every class has as many unmatched labels as counted unmatched detections |
| `Confusion.MissTurnsAround` | YOLOv5-Lite/utils/metrics.py:150 | a single unmatched label already lands on the wrong side |
| `Confusion.ConfusionMatrix.constructor` | YOLOv5-Lite/utils/metrics.py:111-115 | an empty matrix of side nc + 1 |
| `Confusion.ConfusionMatrix.ProcessBatch` | YOLOv5-Lite/utils/metrics.py:117-155 | every cell grows by its multiplicity among the cells of the batch; that is, (a, b) by the matches of a label of class a with a detection of class b and the background cells by the unmatched ones; the sum of the matrix grows by M + (N - K) if K > 0 and by M otherwise |
| `Confusion.ConfusionMatrix.CountLabels` | YOLOv5-Lite/utils/metrics.py:145-150 | one cell per label: (true, predicted) if matched, (background, true) otherwise |
| `Confusion.ConfusionMatrix.CountMisses` | YOLOv5-Lite/utils/metrics.py:152-155 | one cell per unmatched detection: (predicted, background) |
| `Mosaic.Tiles9Fit` | YOLOv5-Lite/utils/datasets.py:737-771 | for all nine sizes up to s every tile lies on the 3s canvas and has the shape of its source slice |
| `Mosaic.Tiles9Disjoint` | YOLOv5-Lite/utils/datasets.py:737-771 | no two of the nine tiles overlap |
| `Mosaic.Ring9` | YOLOv5-Lite/utils/datasets.py:738-757 | the first picture has its corner at (s, s), 1, 3, 5 and 7 lie against its upper, right, lower and left side and 2, 4, 6 and 8 against the picture before, each flush with it, clockwise |
| `Mosaic.LoadMosaic9` | YOLOv5-Lite/utils/datasets.py:727-772 | every tile shows its picture everywhere, the rest of the canvas is grey, and the labels are those of the nine pictures in canvas pixels, picture by picture |
| `Mosaic.Mosaic9` | YOLOv5-Lite/utils/datasets.py:774-786 | after the crop every pixel of every picture that is inside it appears at its offset minus the crop, and for every label and every such pixel the centre of the pixel is in the label if and only if its new position is in the moved and clipped label |
| `Mosaic.Tiles4Fit` | YOLOv5-Lite/utils/datasets.py:682-699 | for every centre on the canvas each of the four tiles fits and its source slice, as computed, has the same shape |
| `Mosaic.Tiles4Disjoint` | YOLOv5-Lite/utils/datasets.py:682-697 | no two of the four tiles overlap |
| `Mosaic.Quadrants4` | YOLOv5-Lite/utils/datasets.py:683-699 | every picture has one corner at the centre, in its own quadrant |
| `Mosaic.Tile4IsVisible` | YOLOv5-Lite/utils/datasets.py:683-697 | the tile of a picture is all of it that lies on the canvas |
| `Mosaic.OnCanvasIs` | YOLOv5-Lite/utils/datasets.py:704 | a converted label keeps its class and has the centre and size of the label in pixels |
| `Mosaic.LoadMosaic4` | YOLOv5-Lite/utils/datasets.py:671-712 | for every centre on the canvas: every pixel of every picture that falls on the canvas appears at its offset, the rest is grey, and the labels follow the pixels in the same sense |
| `Mosaic.LabelsFollowPixels` | YOLOv5-Lite/utils/datasets.py:762-786 | labels move by exactly the offset of their picture: for every tile, crop, label and pixel inside the output, the pixel centre is in the label if and only if its new position is in the moved and clipped label, on both axes |
| `Rectangles.LoadedSize` | YOLOv5-Lite/utils/datasets.py:636-641 | the longer side becomes the image size, the shorter one at most its share |
| `Rectangles.RelativeCovers` | YOLOv5-Lite/utils/datasets.py:432-437 | the relative shape of a batch covers that of each image in it |
| `Rectangles.FitsBatch` | YOLOv5-Lite/utils/datasets.py:417-439 | every loaded image fits the shape of its batch, for every stride and every pad >= 0 |
| `Rectangles.RectangularShapes` | YOLOv5-Lite/utils/datasets.py:430-439 | the loop over batches: stride-multiple shapes that every image of the dataset fits, and the least with room for their batch |
| `Rectangles.Extremes` | YOLOv5-Lite/utils/datasets.py:432-433 | the extreme aspect ratios of a batch: bounds that images of the batch attain |
| `Rectangles.GrowExact` | YOLOv5-Lite/utils/datasets.py:439 | a side of the batch shape is the least multiple of the stride that is at least its relative length in pixels plus pad strides |
| `Rectangles.ShareAttained` | YOLOv5-Lite/utils/datasets.py:432-437 | the relative shape is attained: some image needs all of its rows, and some all of its columns |
| `Rectangles.ShapeIsLeast` | YOLOv5-Lite/utils/datasets.py:430-439 | a multiple of the stride is at least the shape of a batch, on either axis, if and only if it has room for every image of the batch |
| `Numbers.RoundIsNearest` | YOLOv5-Lite/utils/datasets.py:831 | rounding gives the nearest integer, and of two equally near ones the even one |
| `Rectangles.BordersAddUp` | YOLOv5-Lite/utils/datasets.py:840-847 | the two rounded borders add up to the padding, odd or even |
| `Rectangles.GainIsLargest` | YOLOv5-Lite/utils/datasets.py:824-827 | the scale ratio is the largest at which both sides fit the requested shape, and not above 1 unless scaling up is allowed |
| `Rectangles.LetterboxSize` | YOLOv5-Lite/utils/datasets.py:818-848 | the output has exactly the requested shape; with `auto`, each side is at most that, congruent to it modulo the stride, and less than a stride longer than the scaled image |
| `Rectangles.LetterboxReport` | YOLOv5-Lite/utils/datasets.py:829-848 | the ratios reported are the scale ratio, and the padding is half of what the output is longer than the scaled image; stretching has a ratio per axis and no padding |
| `Rectangles.FittingIsNotScaled` | YOLOv5-Lite/utils/datasets.py:824-848 | an image that fits is letterboxed at ratio exactly 1 |
| `Rectangles.RectangularModeIsUnscaled` | YOLOv5-Lite/utils/datasets.py:537-541 | so every image in rectangular mode is, to exactly its stride-multiple batch shape |
| `Rectangles.TripScales` | YOLOv5-Lite/utils/general.py:319-332 | from label to letterboxed pixels, to fractions, to pixels and back to the original image: the trip multiplies by loaded length over gain and clips |
| `Rectangles.RowsSurvive` | YOLOv5-Lite/utils/general.py:319-332 | label rows come back exactly, clipped to the image |
| `Rectangles.ColumnsSurviveExactly` | YOLOv5-Lite/utils/general.py:324-331 | label columns are divided by the height ratio: a corner inside the image comes back exactly if and only if both ratios agree, or it is the left border, or the right border with the error clipped |
| `Rectangles.ProportionsOff` | YOLOv5-Lite/utils/datasets.py:637-640 | by how much loading changes the proportions: the remainder of s times the shorter side modulo the longer one, always at the cost of the shorter side |
| `Rectangles.LoadedColumns` | YOLOv5-Lite/utils/general.py:324-331 | a label column of a loaded image comes back exactly if and only if s times the shorter side is a multiple of the longer one, or the column is the left border, or it is the right border of an image wider than high |
| `Rectangles.RatiosCanDiffer` | YOLOv5-Lite/utils/datasets.py:637-640 | a loaded size for which the ratios differ |
| `ZeroFirst.StepKeepsInvariant` | YOLOv5-Lite/utils/torch_utils.py:27-36 | every step of every rank keeps the invariant between the master and the other ranks |
| `ZeroFirst.RunKeepsInvariant` | YOLOv5-Lite/utils/torch_utils.py:27-36 | it holds in every state of every interleaving |
| `ZeroFirst.MasterGoesFirst` | YOLOv5-Lite/utils/torch_utils.py:32-36 | no rank is inside a section before rank 0 has finished it |
| `ZeroFirst.NeverFarApart` | YOLOv5-Lite/train.py:85-98 | over consecutive sections rank 0 is never more than one section ahead of a rank, nor a rank of it |
| `ZeroFirst.NoDeadlock` | YOLOv5-Lite/utils/torch_utils.py:27-36 | in every reachable state with work left some rank can take a step |
| `ZeroFirst.RunsAreBounded` | YOLOv5-Lite/utils/datasets.py:59-72 | every interleaving of N ranks through S sections has at most 3 S N steps |
| `ZeroFirst.CompleteRuns` | YOLOv5-Lite/utils/datasets.py:59-72 | a run has taken 3 S N steps if and only if every rank has left every section |

## Left out

- Floating-point rounding, half precision, overflow and NaN: arithmetic is over the reals; the overlap of two boxes without area, 0 / 0 in the code, exceeds no threshold.
- Activations, sigmoid, CIoU, focal loss, EMA, the optimiser and autograd: uninterpreted or absent.
- Training loop, logging, plotting, downloads, dataset scanning, video and stream loaders: plumbing around the algorithms.
- `utils/autoanchor.py`: random search and k-means without a decreasing objective.
- `Detect.end2end_forward`, `cat_forward` and the export scripts: variants of the decoder and of suppression; the merge branch of suppression, which a constant switches off.
- Channel inference, depth and width gains in `parse_model`: layers are given with their parameters; the save list is a set, since its order and repetitions are never used.
- A second application of `fuse`: Shuffle_Block has no guard against it.
- Blocks that contain a Conv but are not in the `Block` datatype (GhostConv, BottleneckCSP, C3TR and similar): they are `Other` and taken as unchanged by fusing.
- RepVGGBlock built with `deploy=True`, and the cached `id_tensor`, which is recomputed here.
- Network.FuseBlockCorrect: demands the sufficient condition (no dilated convolution, no squeeze-and-excite) for every block of the network; the necessary and sufficient ones are proved per layer, because later layers can hide a difference.
- SqueezeExcite.DiscardedExcite: speaks of the block before its activation and takes squeeze-and-excite as a factor in (0, 1) per image and channel, which is what SEBlock computes when the feature map is at least as high as wide and less than twice as high; `SqueezeExcite.DiscardedExciteActivated` is about the block after its activation.
- Crystalizer.Plugin.Process: the global bypass, the gains and the reported latency are not modelled; blocks have two samples or more, since the code reads past a block of one.
- RNNoise `process`: input gain, resampling, the output queues and the reported latency.
- RNNoise.Plugin.Session: the model and the release setting change between sessions, not inside one; each session starts from wherever the channels stand.
- Suppression.Nms: equal scores keep their input order, where torch leaves the order open; the lemmas about the greedy selection hold for every descending order.
- Evaluation.Match: takes the overlaps as a table and, among equal overlaps, the first label; classes are visited in order of appearance, and the result does not depend on that order.
- Confusion.ConfusionMatrix.ProcessBatch: demands at most 32768 labels and detections, because indices are cast to 16-bit integers.
- Targets.DecodeInverts: demands anchors in pixels that are the grid anchors times the stride, and an image that is the grid times the stride, as the detector is set up.
- Rectangles.RectangularShapes: does not sort the images by aspect ratio first; the result holds for every order.
- Rectangles.RectangularModeIsUnscaled: demands that loading leaves both sides at least one pixel, since resizing to nothing raises.
- Mosaic: segments and random_perspective are not modelled; pixels have one channel.
- Random perspective, HSV augmentation, mixup, caching: not modelled.
- ZeroFirst: exceptions inside a section and ranks outside the process group (local rank -1) are not modelled.
- The rest of EasyEffects and of the repository (interfaces, presets, wrappers around audio libraries, documentation, packaging of other projects): not modelled.
