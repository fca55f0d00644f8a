# BoxAndBeans EMG decoding core, modelled in Dafny

BoxAndBeans is a Unity game in which the player steers a prosthetic hand with a Myo armband. Surface
EMG frames from the armband's eight electrodes flow through a decoding pipeline. A window buffer
gathers the frames. A comb filter removes mains hum from each window. The features are per-channel
variance or log-variance. An optional transfer matrix maps them. The decision engine is either an
Echo State Network (ESN) or a GMLVQ prototype classifier, and it turns the features into the hand's
opening and rotation velocities. Simpler controllers use armband poses or per-electrode RMS spreads
with a co-contraction mode switch instead. The movement controller turns the chosen velocities and
the arm's orientation into the hand's target angle, position and opening speed.

This project models that pipeline, its three historical variants, and the controllers' decision
rules. It proves the properties the code and its comments promise, and a few places where the code
and its comments part ways.

One Dafny module per source file:

- `WindowBuffer` — the sliding window `Buffer` (ESN_v_002).
- `CombFilter` — the stateful comb filter with carry-over memories (ESN_v_004).
- `CombFilterV002` — the older in-place feedback filter.
- `Features` — variance and log-variance features. This module also covers
  `transfer_learning_algorithm/cs/ESN_v_002/Features.cs`, whose text is the same with line numbers two lower.
- `FeaturesV001` — the first feature extractor, with its n − 1 mean divisor.
- `DenseMatrix` — the dense matrix helpers. The ESN_v_002 `DenseMatrix.cs` is a subset of the
  BeansAndBox one and shares the module.
- `WeightMatrix` — the compressed sparse row reservoir matrix.
- `Esn`, `EsnV001`, `EsnV003` — the three Echo State Networks.
- `Gmlvq`, `GmlvqV003` — the GMLVQ classifier and its older loader.
- `RmsFilter` — the ring buffer `Filter`.
- `EchoStateController`, `GmlvqController`, `SimpleStateMachineController`,
  `StateMachineController`, `DefaultPoseController` — the controllers.
- `Myo` — the angle arithmetic of `MyoController`.
- `ProsthesisMovementController` — the movement rules.
- `Numerics`, `Paths`, `Grids`, `Wrappers` — shared definitions: sums and vectors, C#'s truncation,
  remainder and banker's rounding, `Path.Combine`, 2-D arrays as rows, and `Option`/`Result`.

Conventions:

- Numbers are `real`.
- A value C# computes as ±Infinity or NaN is `NonFinite`, a case of the datatype `Double`. GMLVQ's
  `d_minus` = +Infinity is `None`.
- `Math.Tanh`, `Math.Sqrt` and `Math.Log` are function parameters. They carry only the properties
  the proofs need: tanh lies in (−1, 1) and sqrt is never negative.
- An exception the code throws on purpose is an `Err` (`Result`) or a `Fail` (`Outcome`), naming
  the check that raised it.
- A crash the code does not guard against is a `requires`: an index out of range, a null field, a
  remainder by zero. These are listed below.
- The trained models come from JSON files. Parsed JSON is an input of sequences. The existence of a
  file is a boolean input.
- Objects whose fields the code updates in place are classes with the same fields, and arrays stay
  arrays. Read-only models (the GMLVQ model, the sparse matrix, dense matrices) are datatypes.

## Model

| member | source | states |
|---|---|---|
| WindowBuffer.Buffer.constructor | transfer_learning_algorithm/cs/ESN_v_002/Buffer.cs:28-33 | the buffer has size + 2·overlap zero rows of C channels and the cursor starts at row 0 |
| WindowBuffer.Buffer.Default | transfer_learning_algorithm/cs/ESN_v_002/Buffer.cs:35 | the parameterless buffer is 24 rows (size 8, overlap 8) of 8 channels |
| WindowBuffer.Buffer.IsFull | transfer_learning_algorithm/cs/ESN_v_002/Buffer.cs:62-64 | full exactly when the cursor equals the row count |
| WindowBuffer.Buffer.Store | transfer_learning_algorithm/cs/ESN_v_002/Buffer.cs:39-47 | a full buffer is reported first, then a frame of the wrong width, both leaving the buffer unchanged; otherwise the frame becomes row b, no other row changes, the cursor advances by one and the result says whether the buffer is now full; the buffer keeps its own array |
| WindowBuffer.Buffer.StoreInts | transfer_learning_algorithm/cs/ESN_v_002/Buffer.cs:51-59 | the same as `Store`, each integer channel converted to a real, in the buffer's own array |
| WindowBuffer.Buffer.Retrieve | transfer_learning_algorithm/cs/ESN_v_002/Buffer.cs:67-81 | returns a fresh array equal to the contents, leaves every row as it was (the overlap loop copies rows onto themselves), rewinds the cursor to overlap, keeps the buffer's own array, and every window after the first starts with the first window's leading overlap rows |
| WindowBuffer.Buffer.StoresAfterRetrieve | transfer_learning_algorithm/cs/ESN_v_002/Buffer.cs:72-78 | after a retrieve, size + overlap stores fill the buffer again (also line 32) |
| WindowBuffer.Buffer.RetrieveThenStore | transfer_learning_algorithm/cs/ESN_v_002/Buffer.cs:67-81 | the window handed out is a copy, not the buffer's array: a store that follows leaves the window as retrieved while the row it writes changes in the buffer (also lines 39-47) |
| CombFilter.Run | transfer_learning_algorithm/cs/ESN_v_004/CombFilter.cs:47-59 | one call's output rows, one per input row with every channel; row t is defined as x[t] − raw_memory[t] + α·filtered_memory[t] before the delay and x[t] − x[t−delay] + α·y[t−delay] from the delay on, and the lemmas and `Apply` below state what follows from that |
| CombFilter.OutputPrefix | transfer_learning_algorithm/cs/ESN_v_004/CombFilter.cs:49-59 | an output row depends only on the input rows up to it, not on what follows |
| CombFilter.OutputShift | transfer_learning_algorithm/cs/ESN_v_004/CombFilter.cs:49-66 | a row of B filtered after A, with the memories A leaves behind, equals the corresponding row of A ++ B filtered in one call |
| CombFilter.Continuity | transfer_learning_algorithm/cs/ESN_v_004/CombFilter.cs:49-66 | streaming continuity: filtering A, then B, gives the same rows as one call on A ++ B from the same memories (also lines 28-30) |
| CombFilter.DelayAtLeastTwo | transfer_learning_algorithm/cs/ESN_v_004/CombFilter.cs:36-38 | once the sampling check passes, the rounded delay is at least 2 |
| CombFilter.NegativeHumDelay | transfer_learning_algorithm/cs/ESN_v_004/CombFilter.cs:36-38 | a negative hum frequency passes the sampling check for every sampling frequency above twice it, with a rounded delay of at most 2 |
| CombFilter.NegativeHumFilter | transfer_learning_algorithm/cs/ESN_v_004/CombFilter.cs:36-40 | sampling and hum frequency both −1 pass the check and allocate a filter of delay 1 |
| CombFilter.ZeroDelaySilences | transfer_learning_algorithm/cs/ESN_v_004/CombFilter.cs:55-57 | a filter of delay 0 outputs zeros only: each cell reads the output cell it is about to write, still 0 in the fresh array |
| CombFilter.Output | transfer_learning_algorithm/cs/ESN_v_004/CombFilter.cs:49-59 | the output cell at row t, channel c, by the two loops' formulas; without feedback (α = 0) it is the plain difference x[t] − x[t − delay], the memory standing in before the delay |
| CombFilter.ConstantCancelled | transfer_learning_algorithm/cs/ESN_v_004/CombFilter.cs:49-59 | a constant input after memories of that constant and a silent output is cancelled: every output cell is 0 |
| CombFilter.DefaultDelay | transfer_learning_algorithm/cs/ESN_v_004/CombFilter.cs:38-43 | the 200 Hz / 50 Hz filter delays by four samples |
| CombFilter.Filter.constructor | transfer_learning_algorithm/cs/ESN_v_004/CombFilter.cs:33-41 | fields as given, delay = round-half-to-even(fs / f0), at least 2 for a positive hum frequency, both memories delay × numChannels zeros |
| CombFilter.Filter.Create | transfer_learning_algorithm/cs/ESN_v_004/CombFilter.cs:33-41 | throws exactly when samplingFreq ≤ 2·filterFreq; otherwise a filter as the constructor builds it, including the negative hum frequencies whose delay is 0, 1 or 2 |
| CombFilter.Filter.CreateDefault | transfer_learning_algorithm/cs/ESN_v_004/CombFilter.cs:43 | α = 0.75 on eight channels, the same sampling check |
| CombFilter.Filter.Apply | transfer_learning_algorithm/cs/ESN_v_004/CombFilter.cs:46-68 | a fresh output equal to `Run` of the input and memories; the input is untouched; afterwards the memories hold the last delay input and output rows |
| CombFilter.Filter.FillFromMemory | transfer_learning_algorithm/cs/ESN_v_004/CombFilter.cs:49-53 | the rows before the delay are computed from the memories as `Run` says, and the later rows stay zero |
| CombFilter.Filter.FillFromMemoryRow | transfer_learning_algorithm/cs/ESN_v_004/CombFilter.cs:50-52 | one row before the delay, every channel, as `Run` says; no other row changes |
| CombFilter.Filter.FillRecurrent | transfer_learning_algorithm/cs/ESN_v_004/CombFilter.cs:55-59 | the later rows follow the recurrence within the call, as `Run` says |
| CombFilter.Filter.FillRecurrentRow | transfer_learning_algorithm/cs/ESN_v_004/CombFilter.cs:56-58 | one row at or after the delay, every channel, as `Run` says, reading the rows already written; no other row changes |
| CombFilter.Filter.SaveMemories | transfer_learning_algorithm/cs/ESN_v_004/CombFilter.cs:61-66 | the memories become the last delay input and output rows |
| CombFilter.Filter.Reset | transfer_learning_algorithm/cs/ESN_v_004/CombFilter.cs:70-77 | both memories are zero again, as after construction |
| CombFilterV002.Filtered | transfer_learning_algorithm/cs/ESN_v_002/CombFilter.cs:38-42 | the filtered rows, one per input row with every channel, defined by the in-place recurrence; `Apply` and `NotIdempotent` state its consequences |
| CombFilterV002.NotIdempotent | transfer_learning_algorithm/cs/ESN_v_002/CombFilter.cs:15-44 | no state is kept and a second call runs the recurrence again: an impulse gives α after one call and 2α after two |
| CombFilterV002.DelayAtLeastOne | transfer_learning_algorithm/cs/ESN_v_002/CombFilter.cs:29-31 | once the sampling check passes, round(fs / f0) − 1 is at least 1 |
| CombFilterV002.NegativeHumDelay | transfer_learning_algorithm/cs/ESN_v_002/CombFilter.cs:29-31 | a negative hum frequency passes the sampling check with a delay of at most 1; fs = −f0 gives the delay −2 |
| CombFilterV002.Recurrence | transfer_learning_algorithm/cs/ESN_v_002/CombFilter.cs:38-42 | the cell at row t, channel c, after the in-place loop; without feedback (α = 0) and with a positive delay the input passes through unchanged |
| CombFilterV002.SilenceStays | transfer_learning_algorithm/cs/ESN_v_002/CombFilter.cs:38-42 | a channel that is silent up to row t is silent at row t after filtering |
| CombFilterV002.Filter.constructor | transfer_learning_algorithm/cs/ESN_v_002/CombFilter.cs:26-32 | fields as given and delay = round(fs / f0) − 1, at least 1 for a positive hum frequency and at most 1 for a negative one |
| CombFilterV002.Filter.Create | transfer_learning_algorithm/cs/ESN_v_002/CombFilter.cs:26-32 | throws exactly when samplingFreq ≤ 2·filterFreq; otherwise delay = round(fs / f0) − 1, at least 1 for a positive hum frequency |
| CombFilterV002.Filter.CreateDefault | transfer_learning_algorithm/cs/ESN_v_002/CombFilter.cs:34 | α = −0.75, the same sampling check |
| CombFilterV002.Filter.Apply | transfer_learning_algorithm/cs/ESN_v_002/CombFilter.cs:37-44 | overwrites the caller's array with the recurrence, row i ≥ delay becoming x[i] + α·(already updated row i − delay), rows before the delay unchanged, and returns the same array |
| Features.Slots | BeansAndBox/Assets/Scripts/EchoStateNetwork/Features.cs:115-137 | the channel loop of `tvar`/`tlogvar` keeps the vector's length; its entries are stated by the two lemmas below (also lines 81-101) |
| Features.SlotsUnchanged | BeansAndBox/Assets/Scripts/EchoStateNetwork/Features.cs:120-136 | only slots f + c·F are written; every other slot keeps its value (also lines 86-100) |
| Features.SlotsDistinct | BeansAndBox/Assets/Scripts/EchoStateNetwork/Features.cs:86-100 | with F > 0, slot f + c·F ends up as channel c's feature computed from the value the slot held |
| Features.VarianceAddsToSlot | BeansAndBox/Assets/Scripts/EchoStateNetwork/Features.cs:94-99 | `tvar` adds the squared deviations from the (hi − lo)-mean to what the slot held and divides the total by hi − lo − 1; the result is the unbiased sample variance exactly when the slot held 0 |
| Features.ConstantWindowLogVariance | BeansAndBox/Assets/Scripts/EchoStateNetwork/Features.cs:128-135 | a window in which the channel is constant gives ln 0, not a finite number: `tlogvar` has no guard |
| Features.OneRowWindow | BeansAndBox/Assets/Scripts/EchoStateNetwork/Features.cs:133 | a one-row window divides by zero and the feature is not a finite number (also lines 92, 99) |
| Features.CountAgainstComment | BeansAndBox/Assets/Scripts/EchoStateNetwork/Features.cs:26-46 | the comment's count N / W + 1 equals the real count ⌈N / W⌉ exactly when W does not divide N |
| Features.CeilDivIsFirstCover | BeansAndBox/Assets/Scripts/EchoStateNetwork/Features.cs:39-46 | the loop's window count, the first k with k·W ≥ N, is ⌈N / W⌉ |
| Features.WindowFeatures | BeansAndBox/Assets/Scripts/EchoStateNetwork/Features.cs:42-43 | one window's vector has C entries (F = 1) |
| Features.WindowFeaturesEntry | BeansAndBox/Assets/Scripts/EchoStateNetwork/Features.cs:120-136 | entry c of a window's vector is channel c's log-variance over that window, from a zero slot (also lines 42-43) |
| Features.Accumulate | BeansAndBox/Assets/Scripts/EchoStateNetwork/Features.cs:120-136 | the channel loop writes exactly what `Slots` says into the caller's vector (also lines 86-100) |
| Features.Channel | BeansAndBox/Assets/Scripts/EchoStateNetwork/Features.cs:121-135 | one channel: slot f + c·F takes the feature of channel c computed from its old value, and no other slot changes (also lines 87-99) |
| Features.AddSquaredDeviations | BeansAndBox/Assets/Scripts/EchoStateNetwork/Features.cs:128-131 | the second row loop adds the sum of squared deviations from the mean to the slot (also lines 94-97) |
| Features.WindowSum | BeansAndBox/Assets/Scripts/EchoStateNetwork/Features.cs:122-125 | the first row loop returns the channel's sum over rows [lo, hi) (also lines 88-91) |
| Features.TVar | BeansAndBox/Assets/Scripts/EchoStateNetwork/Features.cs:81-101 | the vector after `tvar` is `Slots` of the variance, from the vector's old contents |
| Features.TLogVar | BeansAndBox/Assets/Scripts/EchoStateNetwork/Features.cs:115-137 | the vector after `tlogvar` is `Slots` of the log-variance, from the vector's old contents |
| Features.ExtractWindowed | BeansAndBox/Assets/Scripts/EchoStateNetwork/Features.cs:32-49 | ⌈N / W⌉ vectors; vector k is the log-variance over rows [max(0, kW − O), min(N, kW + W + O)) into a zero vector; no rows give no vectors |
| Features.NewWindowVector | BeansAndBox/Assets/Scripts/EchoStateNetwork/Features.cs:40-44 | the loop body: a window's log-variance into a fresh zero vector of C entries |
| Features.ExtractWhole | BeansAndBox/Assets/Scripts/EchoStateNetwork/Features.cs:60-67 | a fresh vector of C entries: the log-variance of every channel over all rows |
| FeaturesV001.Slots | transfer_learning_algorithm/cs/ESN_v_001/Features.cs:61-80 | the channel loop of this `tvar` keeps the vector's length; its entries are stated by the lemmas below |
| FeaturesV001.SlotsUnchanged | transfer_learning_algorithm/cs/ESN_v_001/Features.cs:66-79 | only slots f + c·F are written |
| FeaturesV001.SlotsPerChannel | transfer_learning_algorithm/cs/ESN_v_001/Features.cs:66-79 | with one slot per channel, entry c is channel c's `tvar` computed from its old value |
| FeaturesV001.NotSampleVariance | transfer_learning_algorithm/cs/ESN_v_001/Features.cs:63-78 | dividing the mean by n − 1 makes this no sample variance: two rows equal to 1 give 2 here and 0 in the later `tvar` |
| FeaturesV001.TVarOfEqualPair | transfer_learning_algorithm/cs/ESN_v_001/Features.cs:63-78 | two equal rows a give 2a² |
| FeaturesV001.VarianceOfEqualPair | BeansAndBox/Assets/Scripts/EchoStateNetwork/Features.cs:81-101 | two equal rows have variance 0 under the later `tvar` |
| FeaturesV001.OneRowWindow | transfer_learning_algorithm/cs/ESN_v_001/Features.cs:63-78 | a one-row window divides by zero and the feature is not a finite number |
| FeaturesV001.WindowFeatures | transfer_learning_algorithm/cs/ESN_v_001/Features.cs:40-41 | one window's vector has C entries |
| FeaturesV001.WindowFeaturesEntry | transfer_learning_algorithm/cs/ESN_v_001/Features.cs:66-79 | entry c of a window's vector is channel c's `tvar` over that window, from a zero slot (also lines 40-41) |
| FeaturesV001.TVar | transfer_learning_algorithm/cs/ESN_v_001/Features.cs:61-80 | the vector after `tvar` is `Slots` of the old contents |
| FeaturesV001.Channel | transfer_learning_algorithm/cs/ESN_v_001/Features.cs:67-78 | one channel: slot f + c·F takes its `tvar`, no other slot changes |
| FeaturesV001.ExtractWindowed | transfer_learning_algorithm/cs/ESN_v_001/Features.cs:30-47 | ⌈N / W⌉ vectors; vector k is the `tvar` (not the log-variance) over rows [max(0, kW − O), min(N, kW + W + O)) |
| FeaturesV001.NewWindowVector | transfer_learning_algorithm/cs/ESN_v_001/Features.cs:38-42 | the loop body: a window's `tvar` into a fresh zero vector of C entries |
| DenseMatrix.MultiplyVector | BeansAndBox/Assets/Scripts/SignalPorcessing/DenseMatrix.cs:19-29 | throws exactly when cols(W) ≠ len(x); otherwise rows(W) entries, entry i the inner product of row i with x |
| DenseMatrix.MultiplyMatrix | BeansAndBox/Assets/Scripts/SignalPorcessing/DenseMatrix.cs:33-45 | throws exactly when cols(T) ≠ rows(W); otherwise rows(T) × cols(W), entry (i, j) = Σ_k T[i,k]·W[k,j] |
| DenseMatrix.MultiplyAssociative | BeansAndBox/Assets/Scripts/SignalPorcessing/DenseMatrix.cs:19-45 | (T W) x = T (W x): folding a transfer matrix into the input weights agrees with transforming the features first |
| DenseMatrix.RowOfProductTimes | BeansAndBox/Assets/Scripts/SignalPorcessing/DenseMatrix.cs:33-45 | row i of T W times x is row i of T times W x |
| DenseMatrix.ProductTableRows | BeansAndBox/Assets/Scripts/SignalPorcessing/DenseMatrix.cs:19-29 | the row sums of the table t[k]·W[k,j]·x[j] are t[k]·(W x)[k] |
| DenseMatrix.ProductTableColumn | BeansAndBox/Assets/Scripts/SignalPorcessing/DenseMatrix.cs:33-45 | column j of that table sums to (row of t · column j of W)·x[j] |
| DenseMatrix.DotProductTranspose | BeansAndBox/Assets/Scripts/SignalPorcessing/DenseMatrix.cs:19-29 | x · (A y) = (Aᵀ x) · y |
| DenseMatrix.BilinearTableRows | BeansAndBox/Assets/Scripts/SignalPorcessing/DenseMatrix.cs:19-29 | the row sums of the table x[i]·A[i,k]·y[k] are x[i]·(A y)[i] |
| DenseMatrix.BilinearTableColumns | BeansAndBox/Assets/Scripts/SignalPorcessing/DenseMatrix.cs:19-29 | its column sums are (Aᵀ x)[k]·y[k] |
| DenseMatrix.BilinearTableColumn | BeansAndBox/Assets/Scripts/SignalPorcessing/DenseMatrix.cs:19-29 | column k of that table sums to (column k of A · x)·y[k] |
| DenseMatrix.GramNonnegative | BeansAndBox/Assets/Scripts/SignalPorcessing/DenseMatrix.cs:33-45 | the quadratic form of Ω Ωᵀ is never negative |
| DenseMatrix.GramSymmetric | BeansAndBox/Assets/Scripts/SignalPorcessing/DenseMatrix.cs:33-45 | entry (i, j) of Ω Ωᵀ is the inner product of rows i and j of Ω, so Ω Ωᵀ is symmetric |
| DenseMatrix.Row | BeansAndBox/Assets/Scripts/SignalPorcessing/DenseMatrix.cs:123-132 | row i has cols(W) entries and is the row whose inner product with x gives entry i of `multiply(W, x)` |
| DenseMatrix.FromJson | BeansAndBox/Assets/Scripts/SignalPorcessing/DenseMatrix.cs:48-61 | succeeds exactly when every row has the first row's length (0 for an empty array); the matrix then holds the rows in order; otherwise the error names the first row of another length |
| DenseMatrix.CheckRows | transfer_learning_algorithm/cs/ESN_v_002/DenseMatrix.cs:23-30 | the row loop from row i: accepts exactly the rectangular input and stops at the first row of another length |
| WeightMatrix.CompareTo | transfer_learning_algorithm/cs/ESN_v_002/WeightMatrix.cs:82-88 | −1, 0 or 1: negative exactly when (row, column) is lexicographically smaller, zero exactly on equal row and column; the value plays no part |
| WeightMatrix.CompareToOrder | transfer_learning_algorithm/cs/ESN_v_002/WeightMatrix.cs:82-88 | the comparison is antisymmetric, total and transitive, so sorting by it is well defined |
| WeightMatrix.Sort | transfer_learning_algorithm/cs/ESN_v_002/WeightMatrix.cs:48-49 | the caller's list ends sorted by (row, column) and is a permutation of what it held |
| WeightMatrix.Insert | transfer_learning_algorithm/cs/ESN_v_002/WeightMatrix.cs:49 | one insertion step: the prefix grows sorted by one entry, the list stays a permutation |
| WeightMatrix.SinkOnce | transfer_learning_algorithm/cs/ESN_v_002/WeightMatrix.cs:49 | one swap of the inserted entry keeps the insertion invariant and the multiset |
| WeightMatrix.InsertStart | transfer_learning_algorithm/cs/ESN_v_002/WeightMatrix.cs:49 | a sorted prefix with the next entry about to sink meets the insertion invariant |
| WeightMatrix.SinkStep | transfer_learning_algorithm/cs/ESN_v_002/WeightMatrix.cs:49 | swapping the sinking entry with a larger predecessor keeps the invariant one place lower |
| WeightMatrix.InsertDone | transfer_learning_algorithm/cs/ESN_v_002/WeightMatrix.cs:49 | once the sinking entry is not below its predecessor, the prefix is sorted |
| WeightMatrix.Swap | transfer_learning_algorithm/cs/ESN_v_002/WeightMatrix.cs:49 | exchanges two positions and keeps the multiset |
| WeightMatrix.CountBelow | transfer_learning_algorithm/cs/ESN_v_002/WeightMatrix.cs:59-68 | the number of entries of rows below r is at most the list length |
| WeightMatrix.CountBelowSplits | transfer_learning_algorithm/cs/ESN_v_002/WeightMatrix.cs:59-68 | in a sorted list, the positions before CountBelow(s, r) are exactly those of rows below r |
| WeightMatrix.CountBelowAll | transfer_learning_algorithm/cs/ESN_v_002/WeightMatrix.cs:76-79 | when the last entry's row is below r, all entries are |
| WeightMatrix.CountBelowStep | transfer_learning_algorithm/cs/ESN_v_002/WeightMatrix.cs:59-74 | one more entry raises the count by one exactly when its row is below r |
| WeightMatrix.CountBelowMonotone | transfer_learning_algorithm/cs/ESN_v_002/WeightMatrix.cs:55-79 | the counts never decrease with r, so the row starts are non-decreasing |
| WeightMatrix.RowPtr | transfer_learning_algorithm/cs/ESN_v_002/WeightMatrix.cs:55 | M + 1 row starts |
| WeightMatrix.Csr.RowTerms | transfer_learning_algorithm/cs/ESN_v_002/WeightMatrix.cs:138-140 | one term per stored position of row r |
| WeightMatrix.Csr.Product | transfer_learning_algorithm/cs/ESN_v_002/WeightMatrix.cs:136-142 | the product has N entries |
| WeightMatrix.Csr.Apply | transfer_learning_algorithm/cs/ESN_v_002/WeightMatrix.cs:132-143 | throws exactly when len(state) ≠ N, whatever the matrix holds; otherwise a fresh vector of N (not M) entries, entry i the sum of values[k]·state[col_idxs[k]] over row i's positions, so duplicate entries add up |
| WeightMatrix.Csr.AccumulateRow | transfer_learning_algorithm/cs/ESN_v_002/WeightMatrix.cs:138-140 | the inner loop adds row i's terms to entry i and changes no other entry |
| WeightMatrix.Csr.ProductAdditive | transfer_learning_algorithm/cs/ESN_v_002/WeightMatrix.cs:132-143 | `Apply` of a sum is the sum of the `Apply`s |
| WeightMatrix.Csr.RowTermsAdditive | transfer_learning_algorithm/cs/ESN_v_002/WeightMatrix.cs:138-140 | the terms of a sum are the sums of the terms |
| WeightMatrix.Csr.TermAdditive | transfer_learning_algorithm/cs/ESN_v_002/WeightMatrix.cs:139 | one stored term is additive in the state |
| WeightMatrix.Csr.ProductHomogeneous | transfer_learning_algorithm/cs/ESN_v_002/WeightMatrix.cs:132-143 | `Apply` of a scaled state is the scaled `Apply` |
| WeightMatrix.Csr.RowTermsHomogeneous | transfer_learning_algorithm/cs/ESN_v_002/WeightMatrix.cs:138-140 | the terms of a scaled state are the scaled terms |
| WeightMatrix.Csr.TermHomogeneous | transfer_learning_algorithm/cs/ESN_v_002/WeightMatrix.cs:139 | one stored term is homogeneous in the state |
| WeightMatrix.Csr.ProductOfZero | transfer_learning_algorithm/cs/ESN_v_002/WeightMatrix.cs:136-142 | the zero state maps to the zero vector |
| WeightMatrix.AdvanceRows | transfer_learning_algorithm/cs/ESN_v_002/WeightMatrix.cs:62-68 | the row starts after the current row up to the entry's row are set to k, the others unchanged, and the row cursor moves to the entry's row when that is further on |
| WeightMatrix.Fill | transfer_learning_algorithm/cs/ESN_v_002/WeightMatrix.cs:51-79 | succeeds exactly when every entry passes the bound checks, then yields the storage of the sorted list; otherwise some entry fails them |
| WeightMatrix.FillEntries | transfer_learning_algorithm/cs/ESN_v_002/WeightMatrix.cs:59-75 | the `foreach` loop stops at the first entry out of range; otherwise it stores values and columns in order and the row starts up to the last entry's row |
| WeightMatrix.PlaceEntry | transfer_learning_algorithm/cs/ESN_v_002/WeightMatrix.cs:60-74 | one entry: the row check first, then the row starts, then the column check, then the value and column at position k; earlier positions unchanged |
| WeightMatrix.RowStartsStep | transfer_learning_algorithm/cs/ESN_v_002/WeightMatrix.cs:62-68 | after entry k each row start up to its row counts the entries 0 .. k of lower rows |
| WeightMatrix.FinishRows | transfer_learning_algorithm/cs/ESN_v_002/WeightMatrix.cs:76-79 | the row starts after the last entry's row are set to the entry count, completing `RowPtr` |
| WeightMatrix.CsrOfValid | transfer_learning_algorithm/cs/ESN_v_002/WeightMatrix.cs:51-79 | the built storage is well formed: row_ptr[0] = 0, non-decreasing, row_ptr[M] = nnz, every column below N |
| WeightMatrix.RowHoldsItsEntries | transfer_learning_algorithm/cs/ESN_v_002/WeightMatrix.cs:55-79 | positions row_ptr[r] .. row_ptr[r + 1] − 1 hold exactly row r's entries, where row 0 also takes negative rows |
| WeightMatrix.Create | transfer_learning_algorithm/cs/ESN_v_002/WeightMatrix.cs:44-80 | sorts the caller's list in place (a permutation), then succeeds exactly when every entry has row < M and column < N, yielding well-formed storage; only upper bounds are checked |
| WeightMatrix.AllFit | transfer_learning_algorithm/cs/ESN_v_002/WeightMatrix.cs:59-75 | every entry passes the checks in sorted order exactly when every original entry does |
| WeightMatrix.Shifted | transfer_learning_algorithm/cs/ESN_v_002/WeightMatrix.cs:112-118 | one entry per JSON triplet |
| WeightMatrix.ShiftedFits | transfer_learning_algorithm/cs/ESN_v_002/WeightMatrix.cs:112-118 | each index is shifted down by one, so a 1-based index up to M or N is accepted, and 0 or below is too |
| WeightMatrix.FromJson | transfer_learning_algorithm/cs/ESN_v_002/WeightMatrix.cs:106-118 | the 1-based triplets are shifted and sorted; the matrix is built exactly when every 1-based index is at most M (rows) or N (columns), otherwise the index error; the matrix built is the compressed rows of a sorted arrangement of the shifted triplets (`LoadedFrom`) |
| Esn.DenormalizeInvertsNormalize | BeansAndBox/Assets/Scripts/SignalPorcessing/ESN.cs:249 | the output denormalization undoes the input normalization whenever a range has a width (also line 222) |
| Esn.NormalizeInvertsDenormalize | BeansAndBox/Assets/Scripts/SignalPorcessing/ESN.cs:249 | and the normalization undoes the denormalization (also line 222) |
| Esn.NormalizeInUnitRange | BeansAndBox/Assets/Scripts/SignalPorcessing/ESN.cs:222 | an input inside [offset + lo, offset + hi] is normalized into [−1, 1] |
| Esn.Normalize | BeansAndBox/Assets/Scripts/SignalPorcessing/ESN.cs:222 | one input mapped affinely: offset + lo goes to −1 and offset + hi to 1; `NormalizeInUnitRange` and `DenormalizeInvertsNormalize` state its range and inverse |
| Esn.Denormalize | BeansAndBox/Assets/Scripts/SignalPorcessing/ESN.cs:249 | one output mapped back: −1 goes to offset + lo and 1 to offset + hi, and a range of width 0 gives lo + offset for every output; `NormalizeInvertsDenormalize` states that it inverts `Normalize` |
| Esn.NormalizedInput | BeansAndBox/Assets/Scripts/SignalPorcessing/ESN.cs:221-223 | one entry per input, and denormalizing it gives back the raw input |
| Esn.DenormalizedOutput | BeansAndBox/Assets/Scripts/SignalPorcessing/ESN.cs:248-250 | one entry per output; normalizing it gives back the raw W_out x entry where the range has a width, and it is lo + offset where the range has width 0 |
| Esn.NormalizeInPlace | BeansAndBox/Assets/Scripts/SignalPorcessing/ESN.cs:221-223 | the loop overwrites the caller's input with its normalization |
| Esn.CheckOrder | BeansAndBox/Assets/Scripts/SignalPorcessing/ESN.cs:88-91 | passes exactly when every lower bound is at most its upper bound; otherwise names a dimension whose bounds are out of order (also lines 61-64) |
| Esn.CheckRange | BeansAndBox/Assets/Scripts/SignalPorcessing/ESN.cs:84-91 | passes exactly when the range is 2 × n with ordered bounds (equal bounds pass); a wrong column or row count is the dimension error, checked before the order (also lines 57-64) |
| Esn.Deadband | BeansAndBox/Assets/Scripts/SignalPorcessing/ESN.cs:257-270 | 0 exactly when the output y lies in [−0.2, 0.2]; above 0.2 it is 2(y − 0.2) and below −0.2 it is 2(y + 0.2), computed from the unclipped y; within ±1.6 for outputs in [−1, 1] |
| Esn.DeadbandBound | BeansAndBox/Assets/Scripts/SignalPorcessing/ESN.cs:254-268 | the documented [−1, 1] holds exactly for outputs in [−0.7, 0.7]; an output of 1 gives 1.6 |
| Esn.DeadbandUnclipped | BeansAndBox/Assets/Scripts/SignalPorcessing/ESN.cs:258-264 | the band is decided on the clipped value but the result uses the unclipped one: an output of 2 gives 3.6 (−2 gives −3.6), not the 1.6 of the clipped 1 |
| Esn.Classify | BeansAndBox/Assets/Scripts/SignalPorcessing/ESN.cs:277-285 | −1 exactly below −0.5, 1 exactly from 0.5 on, otherwise 0 |
| Esn.ClassifyMonotone | BeansAndBox/Assets/Scripts/SignalPorcessing/ESN.cs:277-285 | a larger output never gets a smaller class |
| Esn.ClassifyAgreesWithDeadband | BeansAndBox/Assets/Scripts/SignalPorcessing/ESN.cs:257-285 | outside [−0.5, 0.5) the class has the deadband's sign |
| Esn.LeakBounded | BeansAndBox/Assets/Scripts/SignalPorcessing/ESN.cs:237 | interpolating between values in [−1, 1] with dt ∈ [0, 1] stays in [−1, 1] |
| Esn.LeakBetween | BeansAndBox/Assets/Scripts/SignalPorcessing/ESN.cs:237 | for dt ∈ [0, 1] the leaked activation lies between the old activation and the new one |
| Esn.Leak | BeansAndBox/Assets/Scripts/SignalPorcessing/ESN.cs:237 | x' = dt·h + (1 − dt)·x: dt = 0 keeps x, dt = 1 gives h, and h = x is a fixed point; `LeakBounded` and `LeakBetween` state its range |
| Esn.Drive | BeansAndBox/Assets/Scripts/SignalPorcessing/ESN.cs:226-233 | one pre-activation per neuron |
| Esn.Blend | BeansAndBox/Assets/Scripts/SignalPorcessing/ESN.cs:229-238 | one new activation per neuron |
| Esn.NextState | BeansAndBox/Assets/Scripts/SignalPorcessing/ESN.cs:226-238 | the new state has one entry per neuron (also line 212) |
| Esn.Interpolate | BeansAndBox/Assets/Scripts/SignalPorcessing/ESN.cs:229-238 | the neuron loop sets x_i to dt·tanh(a_i) + (1 − dt)·x_i from the old state, every neuron at once |
| Esn.NextStateFrozen | BeansAndBox/Assets/Scripts/SignalPorcessing/ESN.cs:237 | dt = 0 leaves the state unchanged (also lines 26-27) |
| Esn.NextStateUnleaked | BeansAndBox/Assets/Scripts/SignalPorcessing/ESN.cs:237 | dt = 1 gives x'_i = tanh((W_in u)_i + (W x)_i) (also lines 26-27) |
| Esn.NextStateBounded | BeansAndBox/Assets/Scripts/SignalPorcessing/ESN.cs:229-238 | a state in [−1, 1]^M stays there for any dt in [0, 1] |
| Esn.NextStateFromRest | BeansAndBox/Assets/Scripts/SignalPorcessing/ESN.cs:226-237 | from the zero state the recurrent term vanishes: x'_i = dt·tanh((W_in u)_i) (also line 121) |
| Esn.TransferFolding | BeansAndBox/Assets/Scripts/SignalPorcessing/ESN.cs:171-190 | folding T into the input weights (W_in T) updates the state exactly as feeding T u to the unfolded network |
| Esn.EchoStateNetwork.constructor | BeansAndBox/Assets/Scripts/SignalPorcessing/ESN.cs:106-123 | the three matrices as given, a zero state of NumNeurons entries, dt = 1, no normalization parameters yet |
| Esn.EchoStateNetwork.Create | BeansAndBox/Assets/Scripts/SignalPorcessing/ESN.cs:106-123 | throws exactly when rows(W_in) ≠ rows(W), W is not square or cols(W) ≠ cols(W_out) |
| Esn.EchoStateNetwork.SetDt | BeansAndBox/Assets/Scripts/SignalPorcessing/ESN.cs:30-40 | throws exactly outside [0, 1] and then keeps the old dt; nothing else changes |
| Esn.EchoStateNetwork.SetInpOffset | BeansAndBox/Assets/Scripts/SignalPorcessing/ESN.cs:44-51 | accepts exactly one offset per input; otherwise the old value stays |
| Esn.EchoStateNetwork.SetInpRange | BeansAndBox/Assets/Scripts/SignalPorcessing/ESN.cs:54-67 | accepts exactly a 2 × K range with ordered bounds; otherwise the old value stays |
| Esn.EchoStateNetwork.SetOutOffset | BeansAndBox/Assets/Scripts/SignalPorcessing/ESN.cs:71-78 | accepts exactly one offset per output |
| Esn.EchoStateNetwork.SetOutRange | BeansAndBox/Assets/Scripts/SignalPorcessing/ESN.cs:81-94 | accepts exactly a 2 × N range with ordered bounds |
| Esn.EchoStateNetwork.Update | BeansAndBox/Assets/Scripts/SignalPorcessing/ESN.cs:215-239 | throws exactly on an input of the wrong length, changing nothing; otherwise the caller's input is normalized in place and the state becomes `NextState` of the old state; a state in [−1, 1] stays there |
| Esn.EchoStateNetwork.GetOutput | BeansAndBox/Assets/Scripts/SignalPorcessing/ESN.cs:245-252 | NumOutputs values which, normalized back, are W_out x where a range has a width, and lo + offset where it has width 0; the state is only read |
| Esn.EchoStateNetwork.GetNormalizedOutput | BeansAndBox/Assets/Scripts/SignalPorcessing/ESN.cs:257-270 | entry i is the deadband of output i: 0 exactly when output i lies in [−0.2, 0.2], positive exactly above 0.2, negative exactly below −0.2 |
| Esn.EchoStateNetwork.GetOutputClassification | BeansAndBox/Assets/Scripts/SignalPorcessing/ESN.cs:275-287 | NumOutputs entries, each −1, 0 or 1: −1 exactly when the output is below −0.5, 1 exactly when it is at least 0.5 |
| Esn.EchoStateNetwork.Assemble | BeansAndBox/Assets/Scripts/SignalPorcessing/ESN.cs:142-153 | succeeds exactly when the reservoir, the output weights, the constructor and the five setters all accept, in source order; the network is then valid and bounded, holds the given input weights, the reservoir built from the triplets, the output weights, dt and the four normalization fields read, and a zero state |
| Esn.EchoStateNetwork.FromJson | BeansAndBox/Assets/Scripts/SignalPorcessing/ESN.cs:138-154 | succeeds exactly when the input weights are rectangular and the rest loads as `Assemble` says; the network then holds every matrix and parameter read, the reservoir built from the triplets, and a zero state |
| Esn.EchoStateNetwork.FromJsonWithTransfer | BeansAndBox/Assets/Scripts/SignalPorcessing/ESN.cs:171-191 | the transfer matrix is folded into the input weights first, which throws unless cols(W_in) = rows(T); the network then takes cols(T) inputs, holds W_in T, the reservoir built from the triplets, the output weights, dt and the four normalization fields read, and a zero state |
| EsnV001.MatrixMult | transfer_learning_algorithm/cs/ESN_v_001/ESN.cs:238-246 | no dimension check: one entry per row of W, equal to W x when x has W's width |
| EsnV001.MatrixMultPads | transfer_learning_algorithm/cs/ESN_v_001/ESN.cs:241-243 | a shorter vector is treated as if padded with zeros to the full width |
| EsnV001.Preactivation | transfer_learning_algorithm/cs/ESN_v_001/ESN.cs:206 | one pre-activation per neuron |
| EsnV001.Activate | transfer_learning_algorithm/cs/ESN_v_001/ESN.cs:208 | one activation per pre-activation |
| EsnV001.ActivateBounded | transfer_learning_algorithm/cs/ESN_v_001/ESN.cs:208 | whatever the pre-activations, the state lies strictly inside (−1, 1) |
| EsnV001.PreactivationExtremes | transfer_learning_algorithm/cs/ESN_v_001/ESN.cs:206 | dt = 0 keeps the pre-activations, dt = 1 replaces them by W_in u + W x |
| EsnV001.LeakOnPreactivation | transfer_learning_algorithm/cs/ESN_v_001/ESN.cs:185-208 | the leak acts on `a`, not on x as the comment's formula says: an input on which the two formulas give different states |
| EsnV001.Integrate | transfer_learning_algorithm/cs/ESN_v_001/ESN.cs:202-209 | the neuron loop: a' = dt·(W_in u + W x) + (1 − dt)·a, then state = tanh(a') entry by entry |
| EsnV001.EchoStateNetwork.constructor | transfer_learning_algorithm/cs/ESN_v_001/ESN.cs:82-100 | the matrices as given; state and `a` start as zero vectors; dt = 1 |
| EsnV001.EchoStateNetwork.Create | transfer_learning_algorithm/cs/ESN_v_001/ESN.cs:82-100 | throws exactly when the three dimension checks fail |
| EsnV001.EchoStateNetwork.SetDt | transfer_learning_algorithm/cs/ESN_v_001/ESN.cs:31-41 | throws exactly outside [0, 1], keeping the old dt |
| EsnV001.EchoStateNetwork.SetInpOffset | transfer_learning_algorithm/cs/ESN_v_001/ESN.cs:45-52 | accepts exactly one offset per input |
| EsnV001.EchoStateNetwork.SetInpRange | transfer_learning_algorithm/cs/ESN_v_001/ESN.cs:55-68 | accepts exactly a 2 × K range with ordered bounds |
| EsnV001.EchoStateNetwork.Update | transfer_learning_algorithm/cs/ESN_v_001/ESN.cs:188-210 | throws exactly on an input of the wrong length, changing nothing; otherwise the input is normalized in place, `a` and the state move as `Integrate` says, and the state lies in (−1, 1) |
| EsnV001.EchoStateNetwork.GetOutput | transfer_learning_algorithm/cs/ESN_v_001/ESN.cs:216-218 | the raw product W_out x, without denormalization |
| EsnV001.EchoStateNetwork.GetOutputClassification | transfer_learning_algorithm/cs/ESN_v_001/ESN.cs:223-235 | every entry is −1, 0 or 1: −1 exactly when the output is below −0.5, 1 exactly when it is at least 0.5 |
| EsnV001.EchoStateNetwork.FromJson | transfer_learning_algorithm/cs/ESN_v_001/ESN.cs:128-154 | succeeds exactly when the input weights, the reservoir, the output weights, the constructor and the dt, inpOffset and inpRange setters all accept; the network then holds every matrix and parameter read, the reservoir built from the triplets, and zero state and pre-activation |
| EsnV003.CheckOffset | transfer_learning_algorithm/cs/ESN_v_003/ESN.cs:135-138 | passes exactly when every output offset lies within 1e-5 of 0 |
| EsnV003.CheckRangeNeutral | transfer_learning_algorithm/cs/ESN_v_003/ESN.cs:139-143 | passes exactly when every output range lies within 1e-3 of [−1, 1]; a one-row range is refused when its first lower bound is out of tolerance |
| EsnV003.NeutralIsIdentity | transfer_learning_algorithm/cs/ESN_v_003/ESN.cs:134-143 | offset 0 and range [−1, 1] make the output denormalization the identity, which is why this network can return W_out x raw (also lines 197-203) |
| EsnV003.NeutralIsNearIdentity | transfer_learning_algorithm/cs/ESN_v_003/ESN.cs:134-143 | within the accepted tolerances, denormalizing an output in [−1, 1] would move it by at most 0.00301 (also lines 197-203) |
| EsnV003.EchoStateNetwork.constructor | transfer_learning_algorithm/cs/ESN_v_003/ESN.cs:80-97 | the matrices as given; the state starts at zero; dt = 1; no normalization set |
| EsnV003.EchoStateNetwork.Create | transfer_learning_algorithm/cs/ESN_v_003/ESN.cs:80-97 | throws exactly when the three dimension checks fail |
| EsnV003.EchoStateNetwork.SetDt | transfer_learning_algorithm/cs/ESN_v_003/ESN.cs:31-41 | throws exactly outside [0, 1], keeping the old dt |
| EsnV003.EchoStateNetwork.SetInpOffset | transfer_learning_algorithm/cs/ESN_v_003/ESN.cs:45-52 | accepts exactly one offset per input |
| EsnV003.EchoStateNetwork.SetInpRange | transfer_learning_algorithm/cs/ESN_v_003/ESN.cs:55-68 | accepts exactly a 2 × K range with ordered bounds |
| EsnV003.EchoStateNetwork.Update | transfer_learning_algorithm/cs/ESN_v_003/ESN.cs:164-195 | throws exactly on an input of the wrong length, changing nothing; otherwise normalizes the input in place and moves the state to dt·tanh(W_in u + W x) + (1 − dt)·x, keeping it in [−1, 1] |
| EsnV003.EchoStateNetwork.GetOutput | transfer_learning_algorithm/cs/ESN_v_003/ESN.cs:197-203 | the raw product W_out x, one entry per output |
| EsnV003.EchoStateNetwork.GetOutputClassification | transfer_learning_algorithm/cs/ESN_v_003/ESN.cs:205-220 | every entry is −1, 0 or 1: −1 exactly when the output is below −0.5, 1 exactly when it is at least 0.5 |
| EsnV003.EchoStateNetwork.FromJson | transfer_learning_algorithm/cs/ESN_v_003/ESN.cs:125-145 | succeeds exactly when every matrix reads, the constructor and setters accept and the output normalization is neutral; a refusal for the normalization names an offset or range out of tolerance; the network then holds every matrix and parameter read, the reservoir built from the triplets, and a zero state |
| Gmlvq.Create | BeansAndBox/Assets/Scripts/SignalPorcessing/GMLVQ.cs:34-50 | succeeds exactly with one label per prototype and an m × m Lambda, keeping all three as given |
| Gmlvq.Distances | BeansAndBox/Assets/Scripts/SignalPorcessing/GMLVQ.cs:52-55 | one squared distance per prototype |
| Gmlvq.DistanceAtPrototype | BeansAndBox/Assets/Scripts/SignalPorcessing/GMLVQ.cs:52-54 | a point at a prototype is at distance 0 from it, whatever Lambda |
| Gmlvq.Gram | BeansAndBox/Assets/Scripts/SignalPorcessing/GMLVQ.cs:171-180 | Omega Omega' is a square matrix with one row and column per row of Omega |
| Gmlvq.GramDistanceNonnegative | BeansAndBox/Assets/Scripts/SignalPorcessing/GMLVQ.cs:171-180 | under a metric Omega Omega' every squared distance is nonnegative (also lines 52-54) |
| Gmlvq.Distance | BeansAndBox/Assets/Scripts/SignalPorcessing/GMLVQ.cs:58-70 | (x − w_k)′ Λ (x − w_k) over the first m features only; `DistanceAtPrototype` and `GramDistanceNonnegative` state that it is 0 at the prototype and never negative for Λ = ΩΩ′ |
| Gmlvq.RowTimes | BeansAndBox/Assets/Scripts/SignalPorcessing/GMLVQ.cs:65-68 | the inner loop computes row i of Lambda times the difference |
| Gmlvq.QuadraticFormLoop | BeansAndBox/Assets/Scripts/SignalPorcessing/GMLVQ.cs:64-70 | the middle loop computes diff' Lambda diff |
| Gmlvq.DifferenceLoop | BeansAndBox/Assets/Scripts/SignalPorcessing/GMLVQ.cs:59-62 | the first loop computes the first m entries of x minus the prototype |
| Gmlvq.DistanceToPrototypes | BeansAndBox/Assets/Scripts/SignalPorcessing/GMLVQ.cs:55-73 | a fresh array holding the distances of x to all prototypes, in prototype order |
| Gmlvq.ArgMin | BeansAndBox/Assets/Scripts/SignalPorcessing/GMLVQ.cs:78-81 | the scan ends at the first index of a smallest distance |
| Gmlvq.FirstMinUnique | BeansAndBox/Assets/Scripts/SignalPorcessing/GMLVQ.cs:78-81 | there is only one such index |
| Gmlvq.Classify | BeansAndBox/Assets/Scripts/SignalPorcessing/GMLVQ.cs:76-83 | the label of the first nearest prototype |
| Gmlvq.ClassifyIsNearest | BeansAndBox/Assets/Scripts/SignalPorcessing/GMLVQ.cs:75-82 | no prototype is nearer to x than the one whose label is returned |
| Gmlvq.Scan | BeansAndBox/Assets/Scripts/SignalPorcessing/GMLVQ.cs:87-95 | the Confidence loop ends at the same index as Classify |
| Gmlvq.ScanMinus | BeansAndBox/Assets/Scripts/SignalPorcessing/GMLVQ.cs:88-95 | d_minus is the smallest distance at an index k ≥ 1 that did not improve the running minimum, and +infinity when no such index exists |
| Gmlvq.ScanFromFirstNearest | BeansAndBox/Assets/Scripts/SignalPorcessing/GMLVQ.cs:88-95 | when prototype 0 is a nearest one, d_minus is the true second-smallest distance |
| Gmlvq.ScanMissesDisplacedMinimum | BeansAndBox/Assets/Scripts/SignalPorcessing/GMLVQ.cs:89-95 | otherwise it need not be: distances (2, 1, 3) give d_minus = 3, and (2, 1) give +infinity |
| Gmlvq.ConfidenceInUnitRange | BeansAndBox/Assets/Scripts/SignalPorcessing/GMLVQ.cs:96 | with nonnegative distances a finite confidence lies in [0, 1], and it is finite whenever d_minus is finite and positive |
| Gmlvq.ConfidenceOf | BeansAndBox/Assets/Scripts/SignalPorcessing/GMLVQ.cs:96 | the margin (d⁻ − d_min) / (d⁻ + d_min), not finite for d⁻ = +∞ or a zero denominator: 0 when the two distances are equal, 1 when d_min = 0; `ConfidenceInUnitRange` bounds it by [0, 1] |
| Gmlvq.MinusAboveMin | BeansAndBox/Assets/Scripts/SignalPorcessing/GMLVQ.cs:88-95 | d_minus is never below the smallest distance |
| Gmlvq.Confidence | BeansAndBox/Assets/Scripts/SignalPorcessing/GMLVQ.cs:85-98 | the label of Classify, and the margin (d_minus − d_min)/(d_minus + d_min), which is not finite for d_minus = +infinity or a zero denominator |
| Gmlvq.ScanLoop | BeansAndBox/Assets/Scripts/SignalPorcessing/GMLVQ.cs:87-95 | the loop computes the running minimum and d_minus of the scan |
| Gmlvq.Pose | BeansAndBox/Assets/Scripts/SignalPorcessing/GMLVQ.cs:108-129 | exactly the labels 1 to 9 have a pose; any other label is an error |
| Gmlvq.PoseDigits | BeansAndBox/Assets/Scripts/SignalPorcessing/GMLVQ.cs:109-126 | the table splits y − 1 into its two base-3 digits, each shifted by −1 |
| Gmlvq.PoseBijective | BeansAndBox/Assets/Scripts/SignalPorcessing/GMLVQ.cs:100-126 | every pair in {−1, 0, 1}² comes from exactly one label |
| Gmlvq.GetOutput | BeansAndBox/Assets/Scripts/SignalPorcessing/GMLVQ.cs:106-130 | the pose of the classified label, two entries in {−1, 0, 1}; any other label throws |
| Gmlvq.Labels | BeansAndBox/Assets/Scripts/SignalPorcessing/GMLVQ.cs:165-169 | one label per row of the column vector |
| Gmlvq.Load | BeansAndBox/Assets/Scripts/SignalPorcessing/GMLVQ.cs:161-183 | a loaded model passes the constructor's checks, and its Lambda is of the form Omega Omega' |
| Gmlvq.LoadedDistanceNonnegative | BeansAndBox/Assets/Scripts/SignalPorcessing/GMLVQ.cs:161-183 | every distance under a loaded model is nonnegative |
| Gmlvq.ReadLabels | BeansAndBox/Assets/Scripts/SignalPorcessing/GMLVQ.cs:166-169 | the label loop reads the first entry of each row |
| Gmlvq.RowDot | BeansAndBox/Assets/Scripts/SignalPorcessing/GMLVQ.cs:175-177 | the innermost loop computes row i of Omega times row j |
| Gmlvq.FillGramRow | BeansAndBox/Assets/Scripts/SignalPorcessing/GMLVQ.cs:174-179 | fills entries (i, j) and (j, i) for j ≥ i with Omega Omega' and changes nothing else |
| Gmlvq.GramLoop | BeansAndBox/Assets/Scripts/SignalPorcessing/GMLVQ.cs:172-180 | the upper triangle, mirrored, is all of Omega Omega' |
| Gmlvq.FromJsonModel | BeansAndBox/Assets/Scripts/SignalPorcessing/GMLVQ.cs:161-183 | the loader yields exactly what Load describes |
| Gmlvq.Element | BeansAndBox/Assets/Scripts/SignalPorcessing/GMLVQ.cs:155 | an element of the array is read from its first entry; an empty element is malformed |
| Gmlvq.MultiFromJson | BeansAndBox/Assets/Scripts/SignalPorcessing/GMLVQ.cs:150-158 | one model per array element, in order, succeeding exactly when every element loads; a failure is the failure of some element |
| GmlvqV003.FromJsonModel | transfer_learning_algorithm/cs/ESN_v_003/GMLVQ.cs:107-113 | succeeds exactly when both matrices read and the constructor accepts; the model keeps the prototypes, labels and Lambda as read |
| GmlvqV003.AgreesWithOmegaLoader | transfer_learning_algorithm/cs/ESN_v_003/GMLVQ.cs:107-113 | storing Omega Omega' under "lambda" gives the model the Omega-based loader builds |
| GmlvqV003.NegativeDistance | transfer_learning_algorithm/cs/ESN_v_003/GMLVQ.cs:52-71 | a Lambda read as given need not be positive semidefinite: a one-dimensional model with Lambda = −1 puts the point 1 at distance −1 from the prototype 0 (also line 110) |
| RmsFilter.SlotIsLatest | BeansAndBox/Assets/Scripts/SignalPorcessing/RMSFilter.cs:12-15 | a slot is 0 until a push lands on it, and then holds the value of the latest push that did |
| RmsFilter.VarianceNonnegative | BeansAndBox/Assets/Scripts/SignalPorcessing/RMSFilter.cs:25-33 | the variance of the slots is never negative, and a constant buffer has none |
| RmsFilter.Mean | BeansAndBox/Assets/Scripts/SignalPorcessing/RMSFilter.cs:17-23 | the sum of the slots over their count, unwritten zeros included: finite exactly for a nonempty buffer, and then times the count it is the sum |
| RmsFilter.Variance | BeansAndBox/Assets/Scripts/SignalPorcessing/RMSFilter.cs:25-33 | the mean squared deviation from the mean, never negative; `VarianceNonnegative` adds that a constant buffer has none |
| RmsFilter.Deviation | BeansAndBox/Assets/Scripts/SignalPorcessing/RMSFilter.cs:25-33 | what `get` returns: not finite exactly for size 0, otherwise never negative, and √0 for a constant buffer |
| RmsFilter.RotationInvariant | BeansAndBox/Assets/Scripts/SignalPorcessing/RMSFilter.cs:17-33 | mean and deviation do not depend on where the ring starts |
| RmsFilter.SwapHalves | BeansAndBox/Assets/Scripts/SignalPorcessing/RMSFilter.cs:17-33 | exchanging the two halves of the slots changes neither their sum nor their variance |
| RmsFilter.Filter.constructor | BeansAndBox/Assets/Scripts/SignalPorcessing/RMSFilter.cs:7-10 | size zero slots; the next slot to write is 0 |
| RmsFilter.Filter.Push | BeansAndBox/Assets/Scripts/SignalPorcessing/RMSFilter.cs:12-15 | only slot `last` takes the value; `last` advances by one modulo the size; every slot keeps holding its latest push |
| RmsFilter.Filter.MeanLoop | BeansAndBox/Assets/Scripts/SignalPorcessing/RMSFilter.cs:17-23 | the sum of all slots over their count, not finite for size 0 |
| RmsFilter.Filter.Get | BeansAndBox/Assets/Scripts/SignalPorcessing/RMSFilter.cs:25-33 | the population standard deviation of all slots, never negative, not finite for size 0 |
| RmsFilter.SlotAfterPush | BeansAndBox/Assets/Scripts/SignalPorcessing/RMSFilter.cs:12-15 | after one more push only the slot it lands on changes |
| RmsFilter.NextSlot | BeansAndBox/Assets/Scripts/SignalPorcessing/RMSFilter.cs:13-14 | the write position advances by one and wraps at the size |
| RmsFilter.BeforeWrap | BeansAndBox/Assets/Scripts/SignalPorcessing/RMSFilter.cs:7-15 | until the ring wraps, the slots are the pushed values followed by zeros |
| RmsFilter.MeanCountsUnwrittenSlots | BeansAndBox/Assets/Scripts/SignalPorcessing/RMSFilter.cs:17-23 | so until the ring is full the mean divides the sum of the pushed values by the size, not by their count |
| EchoStateController.Controller.constructor | BeansAndBox/Assets/Scripts/ProsthesisControllers/EchoStateController.cs:30-38 | no network yet, both velocities 0 |
| EchoStateController.Controller.SetConfiguration | BeansAndBox/Assets/Scripts/ProsthesisControllers/EchoStateController.cs:12-26 | a missing file is reported by its path, the output file first; with both files present it succeeds exactly when the network loads, a reservoir row count below −1 being caught as `NegativeLength`; a failure leaves the old network in place; on success the new network holds everything read, as `Esn.EchoStateNetwork.FromJson` says; the velocities never change |
| EchoStateController.Controller.Decode | BeansAndBox/Assets/Scripts/ProsthesisControllers/EchoStateController.cs:62-83 | nothing happens until the buffer completes a window; then a feature vector of the wrong length throws and changes nothing, and otherwise the network takes one step on the normalized features and the velocities become its first two normalized outputs; the state stays in [−1, 1] |
| EchoStateController.Controller.TakeOutput | BeansAndBox/Assets/Scripts/ProsthesisControllers/EchoStateController.cs:69-71 | the opening velocity is normalized output 0 and the rotation velocity normalized output 1 |
| GmlvqController.SmoothBounded | BeansAndBox/Assets/Scripts/ProsthesisControllers/GMLVQController.cs:90-96 | velocities in [−0.8, 0.8] stay there under labels in {−1, 0, 1} |
| GmlvqController.SmoothFixedPoint | BeansAndBox/Assets/Scripts/ProsthesisControllers/GMLVQController.cs:90-96 | the velocity is left unchanged exactly when it is 0.8 times the label |
| GmlvqController.SmoothContracts | BeansAndBox/Assets/Scripts/ProsthesisControllers/GMLVQController.cs:96 | each step shrinks the distance to that fixed point by the factor 1 − dt = 0.55 (also lines 69, 90) |
| GmlvqController.Smooth | BeansAndBox/Assets/Scripts/ProsthesisControllers/GMLVQController.cs:96 | one smoothing step moves the velocity towards 0.8 times the label without overshooting it (also line 90); the lemmas above give its bound, fixed point and rate |
| GmlvqController.Gate | BeansAndBox/Assets/Scripts/ProsthesisControllers/GMLVQController.cs:91-95 | the rotation label is kept, or set to 0 exactly when the opening label is not 0 and the rotation confidence is below 0.5; a NaN confidence keeps it |
| GmlvqController.Transformed | BeansAndBox/Assets/Scripts/ProsthesisControllers/GMLVQController.cs:78-80 | without a transfer matrix the features as they are, with one the product, which throws on a width mismatch |
| GmlvqController.Controller.constructor | BeansAndBox/Assets/Scripts/ProsthesisControllers/GMLVQController.cs:47-51 | no models, no transfer matrix, both velocities 0 |
| GmlvqController.Controller.SetConfiguration | BeansAndBox/Assets/Scripts/ProsthesisControllers/GMLVQController.cs:14-43 | the transfer matrix is replaced first, a malformed one throwing out of the method; then a missing model file is reported by its path; the call succeeds exactly when every model loads and there are exactly two, and the models are replaced before their count is checked |
| GmlvqController.Controller.Decode | BeansAndBox/Assets/Scripts/ProsthesisControllers/GMLVQController.cs:71-98 | nothing happens until the buffer completes a window; a transfer matrix of the wrong width throws; otherwise both models classify the features, the rotation label is gated by the opening label and the rotation confidence, both labels are smoothed into the velocities, and these stay in [−0.8, 0.8] when the labels are directions |
| SimpleStateMachineController.Validate | BeansAndBox/Assets/SimpleStateMachineController.cs:24-33 | a configuration passes exactly when both electrodes lie in 0..7 and both thresholds in [0, 1]; otherwise the first failing check, in source order, names the field and its value |
| SimpleStateMachineController.WindowSize | BeansAndBox/Assets/SimpleStateMachineController.cs:77 | the number of samples a filter holds: the window length over the sample time, rounded up |
| SimpleStateMachineController.DefaultWindowSize | BeansAndBox/Assets/SimpleStateMachineController.cs:11-12 | with a sample every 10 ms and a 150 ms window the filters hold 15 samples (also line 77) |
| SimpleStateMachineController.Velocity | BeansAndBox/Assets/SimpleStateMachineController.cs:100-118 | +1 when only the first role is active, −1 when only the second is, 0 when both or neither are |
| SimpleStateMachineController.Active | BeansAndBox/Assets/SimpleStateMachineController.cs:43-44 | a spread at least the threshold; a NaN spread is never active and a nonnegative one always reaches a threshold ≤ 0 |
| SimpleStateMachineController.Electrode | BeansAndBox/Assets/SimpleStateMachineController.cs:43-44 | `filterN.get() >= thresholdN`: never for a filter of size 0, always for a nonempty filter and a threshold ≤ 0 |
| SimpleStateMachineController.RotationVelocity | BeansAndBox/Assets/SimpleStateMachineController.cs:98-109 | in {−1, 0, 1}, and 0 outside rotation mode |
| SimpleStateMachineController.OpeningVelocity | BeansAndBox/Assets/SimpleStateMachineController.cs:111-122 | in {−1, 0, 1}, and 0 in rotation mode |
| SimpleStateMachineController.VelocityRoles | BeansAndBox/Assets/SimpleStateMachineController.cs:98-122 | the two velocities are never both nonzero; equal electrode activity moves nothing; otherwise the configured roles decide the direction (also lines 45-48) |
| SimpleStateMachineController.Step | BeansAndBox/Assets/SimpleStateMachineController.cs:53-73 | an active electrode stamps the time; the controller is co-contracting exactly when the two stamps are less than 80 ms apart, and the mode flips exactly on entering co-contraction; both electrodes active at once always co-contract |
| SimpleStateMachineController.ModeFollowsEntries | BeansAndBox/Assets/SimpleStateMachineController.cs:53-73 | after any run the mode is the starting mode flipped once per entry into co-contraction |
| SimpleStateMachineController.QuietRunKeepsInitial | BeansAndBox/Assets/SimpleStateMachineController.cs:53-73 | stamps initialised 1 s apart keep the controller in its initial state until an electrode becomes active (also lines 14, 49-51) |
| SimpleStateMachineController.Controller.constructor | BeansAndBox/Assets/SimpleStateMachineController.cs:75-79 | two separate filters of the window size, no configuration, rotation mode, stamps −1 and −2 (also lines 14, 49-51) |
| SimpleStateMachineController.Controller.SetConfiguration | BeansAndBox/Assets/SimpleStateMachineController.cs:21-37 | an unreadable file is reported; otherwise the result is the validation's, and only a valid configuration replaces the old one |
| SimpleStateMachineController.Controller.Sample | BeansAndBox/Assets/SimpleStateMachineController.cs:82-85 | each filter takes its configured electrode's sample divided by 127 |
| SimpleStateMachineController.Controller.Electrodes | BeansAndBox/Assets/SimpleStateMachineController.cs:43-44 | an electrode is active exactly when its filter's spread reaches its threshold |
| SimpleStateMachineController.Controller.Update | BeansAndBox/Assets/SimpleStateMachineController.cs:53-73 | the controller's fields move exactly as Step says, with the electrodes' current activity |
| SimpleStateMachineController.Controller.GetRotationVelocity | BeansAndBox/Assets/SimpleStateMachineController.cs:98-109 | the rotation velocity for the current mode and electrode activity |
| SimpleStateMachineController.Controller.GetOpeningVelocity | BeansAndBox/Assets/SimpleStateMachineController.cs:111-122 | the opening velocity for the current mode and electrode activity |
| StateMachineController.Step | BeansAndBox/Assets/StateMachineController.cs:20-35 | any other pose ends the hold and clears the flag; a co-contraction pose starts a hold when none is under way; the mode flips exactly when a hold under way has lasted more than 80 ms and has not flipped it yet |
| StateMachineController.Cocontraction | BeansAndBox/Assets/StateMachineController.cs:21 | the co-contraction poses are exactly FingersSpread and Fist: every other pose is not one |
| StateMachineController.OneFlipPerHold | BeansAndBox/Assets/StateMachineController.cs:20-35 | after a flip the state stays put for as long as the co-contraction is held |
| StateMachineController.ChangedOnlyWhileHolding | BeansAndBox/Assets/StateMachineController.cs:10-35 | from the initial state the flip flag is set only while a hold is under way |
| StateMachineController.HoldFlipsAtMostOnce | BeansAndBox/Assets/StateMachineController.cs:20-35 | however many frames a hold lasts, the mode ends flipped exactly when the flag is set, so it flips at most once |
| StateMachineController.RotationVelocity | BeansAndBox/Assets/StateMachineController.cs:41-52 | nonzero only in rotation mode, where WaveOut and WaveIn act as in the stateless controller |
| StateMachineController.OpeningVelocity | BeansAndBox/Assets/StateMachineController.cs:54-65 | nonzero only in opening mode, where the same two poses open and close the hand |
| StateMachineController.NeverBoth | BeansAndBox/Assets/StateMachineController.cs:41-65 | the two velocities are never both nonzero, and each lies in {−1, 0, 1} |
| StateMachineController.Controller.constructor | BeansAndBox/Assets/StateMachineController.cs:10-12 | rotation mode, no flip, no hold under way |
| StateMachineController.Controller.Update | BeansAndBox/Assets/StateMachineController.cs:20-35 | the fields move exactly as Step says |
| DefaultPoseController.RotationVelocity | BeansAndBox/Assets/Scripts/ProsthesisControllers/DefaultPoseController.cs:11-18 | +1 exactly for WaveOut, −1 exactly for WaveIn, 0 for every other pose |
| DefaultPoseController.OpeningVelocity | BeansAndBox/Assets/Scripts/ProsthesisControllers/DefaultPoseController.cs:20-27 | +1 exactly for FingersSpread, −1 exactly for Fist, 0 for every other pose |
| DefaultPoseController.NeverBoth | BeansAndBox/Assets/Scripts/ProsthesisControllers/DefaultPoseController.cs:11-27 | no pose turns and opens the hand at once, and Rest, DoubleTap and Unknown do neither |
| Myo.CropAngleRange | BeansAndBox/Assets/Scripts/ProsthesisControllers/MyoController.cs:53-62 | the result lies in [−180, 180] |
| Myo.CropAngleRangeTurns | BeansAndBox/Assets/Scripts/ProsthesisControllers/MyoController.cs:49-62 | the result is the input turned by a whole number of full turns |
| Myo.CropAngleRangeKeeps | BeansAndBox/Assets/Scripts/ProsthesisControllers/MyoController.cs:53-62 | an angle already in [−180, 180] is left as it is |
| Myo.CropAngleRangeIdempotent | BeansAndBox/Assets/Scripts/ProsthesisControllers/MyoController.cs:53-62 | cropping twice is cropping once |
| Myo.Ratio | BeansAndBox/Assets/Scripts/ProsthesisControllers/MyoController.cs:44-45 | the float quotient: NaN exactly for 0/0, otherwise the quotient, in [0, 1] for a numerator within [0, denominator] |
| Myo.Vertical | BeansAndBox/Assets/Scripts/ProsthesisControllers/MyoController.cs:41 | the negated pitch clamped to [−maxAngleDown, maxAngleUp], and left as it is inside that range |
| Myo.Horizontal | BeansAndBox/Assets/Scripts/ProsthesisControllers/MyoController.cs:42 | the yaw clamped to [−maxHorizontalAngle, maxHorizontalAngle], and left as it is inside that range |
| Myo.GetPosition | BeansAndBox/Assets/Scripts/ProsthesisControllers/MyoController.cs:34-47 | each coordinate is NaN exactly when its range has width 0, and otherwise lies in [0, 1] |
| Myo.CalibrationPosition | BeansAndBox/Assets/Scripts/ProsthesisControllers/MyoController.cs:34-47 | at the calibration orientation the target is centred horizontally and sits at maxAngleDown / (maxAngleUp + maxAngleDown) vertically (also lines 10-12, 27) |
| Myo.HorizontalMonotone | BeansAndBox/Assets/Scripts/ProsthesisControllers/MyoController.cs:42-44 | turning further right never moves the target left |
| ProsthesisMovementController.MinCircleDistanceReaches | BeansAndBox/Assets/Scripts/Logic/ProsthesisMovementController.cs:74-86 | the turn reaches the target angle: it differs from the plain difference by at most one full turn |
| ProsthesisMovementController.MinCircleDistanceAntisymmetric | BeansAndBox/Assets/Scripts/Logic/ProsthesisMovementController.cs:74-86 | turning back is the opposite turn, and an angle needs no turn to itself |
| ProsthesisMovementController.MinCircleDistanceShortest | BeansAndBox/Assets/Scripts/Logic/ProsthesisMovementController.cs:74-86 | between angles in [0, 360) the turn is at most half a circle and never longer than the plain difference; a gap of exactly 180 degrees is turned negatively |
| ProsthesisMovementController.MinCircleDistance | BeansAndBox/Assets/Scripts/Logic/ProsthesisMovementController.cs:74-86 | the signed shorter turn, never longer than the plain difference; `MinCircleDistanceReaches`, `MinCircleDistanceAntisymmetric` and `MinCircleDistanceShortest` state that it reaches the target, is antisymmetric and is at most half a circle |
| ProsthesisMovementController.ClampUnit | BeansAndBox/Assets/Scripts/Logic/ProsthesisMovementController.cs:98-106 | the coordinate clamped to [0, 1], NaN becoming 0 |
| ProsthesisMovementController.ToWorldPosition | BeansAndBox/Assets/Scripts/Logic/ProsthesisMovementController.cs:98-106 | the position lies inside the playground's bounds |
| ProsthesisMovementController.Scale | BeansAndBox/Assets/Scripts/Logic/ProsthesisMovementController.cs:98-106 | [0, 1] is mapped onto [lo, hi], 0 onto lo and 1 onto hi |
| ProsthesisMovementController.ToWorldPositionCorners | BeansAndBox/Assets/Scripts/Logic/ProsthesisMovementController.cs:98-106 | the unit square's corners land on the playground's corners, and a NaN position on the lower-left one |
| ProsthesisMovementController.OpenVelocity | BeansAndBox/Assets/Scripts/Logic/ProsthesisMovementController.cs:48-59 | the controller's velocity q over the shortest opening duration, or 0; it is 0 exactly when q is 0, or the hand is fully open (coefficient ≥ 1) and q > 0, or fully closed (coefficient ≤ 0) and q < 0 |
| ProsthesisMovementController.Movement.constructor | BeansAndBox/Assets/Scripts/Logic/ProsthesisMovementController.cs:27-30 | the hand starts at angle 0 |
| ProsthesisMovementController.Movement.Rotate | BeansAndBox/Assets/Scripts/Logic/ProsthesisMovementController.cs:88-96 | the target angle advances by the negated velocity times the maximum speed times the frame time, wrapped by the truncated remainder; the body turns the shortest way towards it |
| ProsthesisMovementController.RotateWrap | BeansAndBox/Assets/Scripts/Logic/ProsthesisMovementController.cs:90 | the wrapped angle differs from the unwrapped one by whole turns, and lies in [0, 360) unless one step turns backwards by a full circle or more |
| ProsthesisMovementController.RotateStaysInCircle | BeansAndBox/Assets/Scripts/Logic/ProsthesisMovementController.cs:90 | from [0, 360), a step of less than a full circle either way stays in [0, 360), and needs no wrap when the sum already lies there |
| ProsthesisMovementController.AngleStep | BeansAndBox/Assets/Scripts/Logic/ProsthesisMovementController.cs:89-90 | the turn of one frame: 0 when the velocity, the maximum speed or the frame time is 0, and for a positive maximum speed and frame time negative exactly when the velocity is positive |
| ProsthesisMovementController.Turned | BeansAndBox/Assets/Scripts/Logic/ProsthesisMovementController.cs:90 | the wrapped angle lies strictly between −360 and 360, and is ≤ 0 after a backward step of a full circle or more; `RotateWrap` and `RotateStaysInCircle` give the rest |
| ProsthesisMovementController.AngularVelocity | BeansAndBox/Assets/Scripts/Logic/ProsthesisMovementController.cs:92-95 | per axis, zero where the body already sits at (0, 0, target), and turning towards the target on the z axis for a positive gap below half a circle |
| Numerics.Truncate | BeansAndBox/Assets/Scripts/ProsthesisControllers/MyoController.cs:55 | truncation toward zero: the integer part of the argument, rounded towards 0 on both sides |
| Numerics.Mod360 | BeansAndBox/Assets/Scripts/Logic/ProsthesisMovementController.cs:90 | the floating-point remainder modulo 360: strictly within one turn of 0, with the sign of the dividend, and the dividend minus a whole number of turns |
| Numerics.RoundHalfEven | transfer_learning_algorithm/cs/ESN_v_004/CombFilter.cs:38 | the nearest integer, and an even one on a tie |
| Paths.Combine | BeansAndBox/Assets/Scripts/ProsthesisControllers/EchoStateController.cs:13-14 | the path starts with the directory and ends with the file name |

## Left out

- File reading, `File.Exists`, the `readFileData` helpers and SimpleJSON parsing are not modelled.
  Loaders take the parsed JSON as sequences. The controllers take "the file exists" as a boolean.
  `JSONArray` casts are not modelled either: a JSON value of the wrong kind is not representable.
- `DenseMatrix.VectorFromJSON` and `IntVectorFromJSON` have no member. A parsed JSON vector already
  is the sequence they copy, in the same order and length.
- The Myo event subscription, Unity's `Update`/`FixedUpdate` scheduling and the `System.Timers`
  callback that samples the electrodes are out of scope. Each is modelled as one sequential call:
  `Decode`, `Update` or `Sample`. Interleavings of the timer with `_Update` are not modelled.
- Doubles and floats are reals, with no rounding, overflow or float/double casts. A non-finite
  value is collapsed to `NonFinite`, with no distinction between +Infinity, −Infinity and NaN. The
  `(float)` casts of the ESN outputs in `EchoStateController` are identities here.
- `Math.Tanh`, `Math.Sqrt` and `Math.Log` are parameters with only the properties above.
- Unity physics and animation are not modelled. Rigidbody velocities, `Move`, `FixConstraints`,
  the animator's `openingCoefficient` and the playground's collider are inputs or absent.
  `ProsthesisMovementController.AngularVelocity` stands for the angular velocity handed to the
  rigid body.
- `MyoController`'s calibration capture on the space key, the Myo's vibration and `Debug` logging
  are not modelled. The calibration angles are parameters of `Myo.GetPosition`.
- `Paths.Combine`: modelled with '/' as the separator. Rooted file names and the platform's own
  separator are not modelled.
- `EchoStateController.Controller.Decode` and `GmlvqController.Controller.Decode` take the feature
  vector of the completed window as a parameter. The chain `retrieve` → `filter` →
  `extractFeatures` that produces it is modelled by `WindowBuffer.Buffer.Retrieve`,
  `CombFilter.Filter.Apply` and `Features.ExtractWhole`, but it is not composed inside `Decode`.
- `CombFilter.Run`: its contract states the shape of the output. The per-row values are its
  definition, and `OutputPrefix`, `OutputShift`, `Continuity` and `Filter.Apply` state what follows
  from them.
- `CombFilterV002.Filtered`: the same holds for the in-place recurrence. `Filter.Apply` and
  `NotIdempotent` state its consequences.
- `Features.Slots` and `FeaturesV001.Slots`: their contracts state only the vector's length. The
  entries are stated by `SlotsUnchanged`, `SlotsDistinct` and `SlotsPerChannel`.
- `FeaturesV001.NotSampleVariance`: the difference from the sample variance is shown on one
  concrete window, not characterised for all windows.
- `EsnV001.LeakOnPreactivation`: the disagreement with the comment's formula is shown on one input.
- Crashes that the code does not guard against are excluded by `requires`:
  - `WindowBuffer.Buffer.constructor`: a negative capacity or channel count.
  - `WindowBuffer.Buffer.Retrieve`: an overlap larger than the buffer.
  - `CombFilter.Filter.Create`, `CombFilter.Filter.CreateDefault`: the inputs `AllocationFails`
    names, which pass the sampling check and then fail. A hum frequency of 0 makes the quotient
    infinite, and its cast to int is undefined; a negative hum frequency whose rounded quotient is
    negative asks for arrays of negative length. Every other negative hum frequency is modelled.
  - `CombFilter.Filter.Apply`: fewer input rows than the delay, or a channel count other than the
    filter's.
  - `CombFilterV002.Filter.Apply`: a negative delay on an array with channels. The loop then reads
    row `delay` first, out of range.
  - `Features.ExtractWindowed`, `FeaturesV001.ExtractWindowed`: a window width W ≤ 0 with rows to
    process. The C# loop would never end.
  - `WeightMatrix.Csr.Apply`: a state of N entries together with a stored row at or beyond N, or a
    column index that is negative. The loader lets the 1-based index 0 through as −1, and `Apply`
    would then read out of range. A state of another length is modelled for every matrix: the
    length check throws before the matrix is read.
  - `WeightMatrix.Create`, `WeightMatrix.FromJson` and the network loaders that call them: a row
    count below −1, for which `row_ptr` cannot be allocated. `EchoStateController.Controller.SetConfiguration`
    catches that exception, and it is modelled there as `NegativeLength`.
  - `Esn.EchoStateNetwork.Update`, `EsnV001.EchoStateNetwork.Update`,
    `EsnV003.EchoStateNetwork.Update`: input normalization not set (a null field), or an input
    range of width 0. The C# code would produce ±Infinity or NaN inputs there.
  - `Esn.EchoStateNetwork.GetOutput`, `GetNormalizedOutput`, `GetOutputClassification`: output
    normalization not set.
  - `EsnV001.MatrixMult`: a vector longer than the matrix is wide.
  - `EsnV003.EchoStateNetwork.FromJson`: an "outRange" with one row and at least one column
    whose first lower bound is within tolerance, so that the check indexes the missing second row.
    A one-row range whose first lower bound is out of tolerance is modelled: it is refused with
    `UnsupportedOutputNormalization` before the second row is read.
  - `Gmlvq.DistanceToPrototypes` and the members using it: fewer than m features.
  - `Gmlvq.Classify`, `Gmlvq.Confidence`, `Gmlvq.GetOutput`: a model without prototypes.
  - `GmlvqController.Controller.Decode`: fewer than two models, or models that cannot classify the
    transformed features. `SetConfiguration` guarantees two models but not their widths.
  - `EchoStateController.Controller.Decode`: no network loaded, or a network with fewer than two
    outputs.
  - `RmsFilter.Filter.Push`: a filter of size 0, whose write to `buffer[last]` is out of range.
  - `SimpleStateMachineController.Controller.constructor`: a sample time ≤ 0, or a negative window
    length (the parameter is a `nat`). A window of minus one sample time or less asks for filter
    buffers of negative length; a shorter negative window gives filters of size 0, whose `Push`
    fails as above.
  - `SimpleStateMachineController.Controller.Sample`, `Update` and the velocity getters: no
    configuration loaded, a frame without eight channels, or filters of size 0.
- Divisions by zero that do not crash but give non-finite floats are excluded by `requires`:
  - `ProsthesisMovementController.OpenVelocity`: a shortest opening duration of 0, for which the
    float division would give an infinite or NaN speed.
  - `ProsthesisMovementController.Movement.Rotate`: a frame time of 0. The division of the turn
    vector by the frame time would give infinite or NaN angular velocities.
  - `CombFilterV002.Filter.Create`, `CombFilterV002.Filter.CreateDefault`: a hum frequency of 0
    with a positive sampling frequency. The quotient is infinite, and its cast to int is
    undefined. A negative hum frequency is modelled, including the negative delays it can give.
- The remaining files of the repository are outside this model. They are the game logic,
  spawning, scoring, menus, persistence DTOs and DAOs, `KeyboardController`, `ColorBoxByPose` and
  the commented-out `Display`/`Main` test programs. The `ProsthesisController` interface of another
  snapshot is not reconciled with the `get*Velocity` overrides that are modelled.
