# dsp-dispatch: what its adapters guarantee

dsp-dispatch puts one normalized interface in front of many FFT and FIR libraries. This project models the adapters
between that interface and the libraries, over exact arithmetic, and proves the promises of the interface.

**FIR plans.** A plan carries a delay line from one `execute` call to the next and forgets it on `clear`. Three
backends do this in three ways: the portable one with a saved history, the IPP one with two delay buffers that it swaps
after the last channel succeeded, the CMSIS one with reversed taps that slide over a state buffer. Each is a class
here, with the same loops and the fields that carry samples or taps; buffers that belong to a library alone, such as
IPP's specification and work buffers, are left out. `FirMachine` is the abstract plan: per channel the stream fed since
the last clear, and for every successful call the matching stretch of the one-shot reference filter of the tests. Every
class refines that machine: its `Valid()` ties the concrete buffers to the fed streams and says that the plan's whole
life so far, calls and outputs, is a run of the machine. The lemmas about runs (one shot equals streaming, any block
sizes, failed calls, clear, independent channels, linearity, delay, complex plans as real plans) therefore hold of the
code in every reachable state. `Arith` stands for the template parameters `Sample` and `Tap`; its one law is met by
real samples, complex samples with real taps, and complex samples with complex taps (`FirArithmetic.AllLawful`).

**FFT plans.** `Dft` is the reference transform of the tests, unscaled. Its twiddle exp(-2*pi*i/N) is a parameter: any
primitive N-th root of unity of modulus one (`IsTwiddle`), the opposite direction takes its conjugate. `FftContract` is
the public contract (scaling, N/2+1 bins, ignored imaginary parts) and its round trips. `CmsisFft` and `VendorFft` are
the adapters: packing and unpacking, row layout, scratch buffers, 1/N, each method proved to do to every row what the
contract says. What a library call computes is the reference transform, in the library's own format and scaling.

**Around them.** `SmoothLength` (AOCL's length test), `StrideLayout` (byte strides against row distances),
`PlanOwnership` (moves, failing factories and destruction by the right function), `BenchNames` (the printed benchmark
names and their parser).

Integers are unbounded; sizes are taken to fit the libraries' narrower types, except where a factory tests that itself.
All arithmetic is over `real`: rounding is not modelled. What a library decides by itself (a status, an allocation) is
an argument.

Where code and documentation disagree, the model follows the code: `docs/requirements.md:35` allows `input == output`
for complex transforms, but the ArmPL adapter does not offer it (`src/backends/armpl/armpl_backend.cpp:25-26`), so a
precondition rules it out there. It is proved for the CMSIS adapter, which copies every row, and for KFR's row loop,
where KFR's own call is assumed to work in place. ArmPL's complex-to-real call is free to overwrite its input, because
the plan does not ask for it to be preserved; the contract speaks of the bins on entry. The FIR header says nothing
about overlapping buffers; the portable loop reads its block again after writing output, so the FIR methods require
distinct buffers.

## Model

| member | source | states |
|---|---|---|
| Dft.ReferenceDft | tests/test_fft.cpp:32-45 | the nested loops of the reference fill the output with the transform that all FFT statements are about |
| Dft.TransformOfImpulse | tests/test_fft.cpp:175-190 | the spectrum of a unit impulse at j is w^(j k) in bin k; for an impulse at 0 it is one everywhere |
| Dft.TransformIsLinear | tests/test_fft.cpp:38-42 | every bin of a weighted sum of inputs is the weighted sum of their bins, so the values on impulses determine the transform |
| Dft.TwiddlesExist | tests/test_fft.cpp:39 | the assumption about the twiddle can be met: exact roots exist for lengths 1, 2 and 4 |
| Dft.Orthogonality | tests/test_fft.cpp:38-42 | two rows of the transform matrix, one of them conjugated, sum to N if they are the same row and to 0 if not |
| Dft.TransformInverts | tests/test_fft.cpp:32-45 | forward and unscaled inverse, one after the other, multiply every element by N, for every N and every input |
| FftContract.InverseOfForward | docs/requirements.md:29-31 | with 1/N on the inverse only, inverse after forward is the identity |
| FftContract.ForwardOfInverse | docs/requirements.md:29-31 | forward after inverse is the identity as well |
| FftContract.DirectionsOfComplexTransform | docs/requirements.md:29-31 | a forward plan computes the unscaled transform itself, an inverse plan what that transform takes back to the input |
| FftContract.HermitianSymmetry | docs/requirements.md:26 | the spectrum of real input is its own mirrored conjugate; its DC bin, and its Nyquist bin for even N, are real |
| FftContract.ExpandOfRealToComplex | docs/requirements.md:26 | the N/2+1 bins of real input are the first bins of the reference transform, and determine its whole spectrum |
| FftContract.RealRoundTrip | tests/test_fft.cpp:128-173 | complex-to-real undoes real-to-complex exactly, for every length, even or odd |
| FftContract.BinsRoundTrip | docs/requirements.md:27-28 | of arbitrary bins, the way to samples and back loses the imaginary parts of DC and Nyquist and nothing else |
| FftContract.BinsRoundTripExactly | docs/requirements.md:27-28 | that way is the identity if and only if those imaginary parts are zero |
| FftContract.IgnoredParts | docs/requirements.md:27-28 | two inputs of complex-to-real give the same samples if and only if they differ at most in those imaginary parts |
| CmsisFft.UnpackedPacked | src/backends/cmsis/cmsis_backend.cpp:92-98 | the packed format keeps everything of N/2+1 bins but the ignored imaginary parts |
| CmsisFft.PackedUnpacked | src/backends/cmsis/cmsis_backend.cpp:74-82 | and every packed spectrum is the packed form of the bins it expands to |
| CmsisFft.PackedSpectrum | src/backends/cmsis/cmsis_backend.cpp:74-82 | the bins of real input survive the packed format, because their DC and Nyquist bins are real |
| CmsisFft.PackedInput | src/backends/cmsis/cmsis_backend.cpp:92-99 | packing public bins before the inverse transform does not change its samples |
| CmsisFft.ComplexPlan.ExecuteRow | src/backends/cmsis/cmsis_backend.cpp:57-63 | one pass of the batch loop makes its row the unscaled transform, or for an inverse plan the row whose transform the input was, and leaves every other row and the rest of the buffer alone |
| CmsisFft.ComplexPlan.Execute | src/backends/cmsis/cmsis_backend.cpp:54-65 | every output row of a forward plan is the unscaled transform of the input row as it was on entry; of an inverse plan, the row whose transform that is; also when input and output are one buffer |
| CmsisFft.RealPlan.ExpandPacked | src/backends/cmsis/cmsis_backend.cpp:74-82 | the index loop writes the interleaved public bins of the packed spectrum, into its slice only |
| CmsisFft.RealPlan.PackBins | src/backends/cmsis/cmsis_backend.cpp:92-98 | the index loop fills the library's buffer with the packed form of the row's bins |
| CmsisFft.RealPlan.ExecuteForward | src/backends/cmsis/cmsis_backend.cpp:66-85 | every output row holds the first N/2+1 bins of the reference transform of its samples |
| CmsisFft.RealPlan.ExecuteInverse | src/backends/cmsis/cmsis_backend.cpp:86-103 | every output row holds the samples of the public bins it was given, scaled by 1/N |
| CmsisFft.RealRoundTripOfRows | tests/test_fft.cpp:154-172 | a real-to-complex plan followed by a complex-to-real plan returns every row of every batch |
| CmsisFft.BinsRoundTripOfRows | src/backends/cmsis/cmsis_backend.cpp:74-98 | a complex-to-real plan followed by a real-to-complex plan returns every row of bins with only the DC and Nyquist imaginary parts cleared |
| VendorFft.ArmplPlan.NormalizeComplex | src/backends/armpl/armpl_backend.cpp:121-132 | the flat loop scales each of the n * batch complex elements by 1/N exactly once and nothing after them |
| VendorFft.ArmplPlan.NormalizeReal | src/backends/armpl/armpl_backend.cpp:128-131 | the same for the real output of complex-to-real |
| VendorFft.ArmplPlan.ExecuteComplex | src/backends/armpl/armpl_backend.cpp:135-159 | every output row of a forward plan is the unscaled transform of its input row; of an inverse plan, with 1/N applied exactly once, the row whose transform that is |
| VendorFft.ArmplPlan.ExecuteRealToComplex | src/backends/armpl/armpl_backend.cpp:145-148 | every output row holds the N/2+1 unscaled bins of its samples |
| VendorFft.ArmplPlan.ExecuteComplexToReal | src/backends/armpl/armpl_backend.cpp:149-157 | every output row holds the samples, with 1/N applied, of the bins it was given on entry; the input buffer may be spoiled |
| VendorFft.KfrPlan.ScaleRow | bench/backends/kfr/kfr_backend.cpp:48-52 | scaling a row in place touches that row only |
| VendorFft.KfrPlan.Execute | bench/backends/kfr/kfr_backend.cpp:38-55 | transforming and scaling row by row, with the same two outcomes as ArmPL's flat scaling, also when input and output are one buffer |
| CmsisFft.ComplexRoundTripOfRows | tests/test_fft.cpp:96-126 | a forward and an inverse CMSIS plan return every row of every batch, whichever of the three buffers coincide |
| VendorFft.ArmplRoundTrip | tests/test_fft.cpp:96-126 | a forward and an inverse ArmPL plan return every row of every batch |
| VendorFft.KfrRoundTrip | tests/test_fft.cpp:96-126 | the same for KFR, whichever of the three buffers coincide |
| VendorFft.ComplexRoundTrip | docs/requirements.md:29-31 | the contract is the same for every backend: ArmPL's inverse undoes KFR's forward transform |
| VendorFft.RealRoundTripOfRows | tests/test_fft.cpp:154-172 | the real round trip over whole batches, for even and odd lengths |
| FirSpec.ReferenceFir | tests/test_fir.cpp:22-32 | the nested loops of the reference compute the filter that all FIR statements are about |
| FirSpec.WindowIsReference | src/backends/portable/fir_backend.cpp:51-57 | summing over the last samples of history and block is summing over the whole stream, with zeros where it has not begun |
| FirSpec.BlockOutIsReference | src/backends/portable/fir_backend.cpp:51-58 | a block filtered with the delay line of a stream is the matching stretch of the one-shot output |
| FirSpec.NextLineIsDelayLine | src/backends/portable/fir_backend.cpp:60-65 | the last samples of history and block are again the delay line of the longer stream, also when the block is shorter than the line |
| FirSpec.StreamingEqualsOneShot | tests/test_fir.cpp:137-165 | whatever the blocks, the concatenated outputs of a fresh filter are the reference of the concatenated inputs |
| FirSpec.ImpulseResponse | tests/test_fir.cpp:22-32 | one sample followed by zeros comes out as its products with the taps in order, then as zeros, whatever the blocks |
| FirSpec.BlockSizeIndependence | tests/test_fir.cpp:147-165 | filters that were fed a stream in different blocks agree on every output both have produced |
| FirSpec.DelayedStream | src/backends/portable/fir_backend.cpp:51-65 | when one run was fed a prefix of the other's stream delayed by d zeros, or the other way round, its output is a prefix of the delayed output, for any d and any blocks |
| FirSpec.DelayedBlocks | src/backends/portable/fir_backend.cpp:51-65 | for plans of fixed block sizes: d zeros come out as zeros and every later output is the undelayed one d samples before, also when d is not a multiple of the block size; each plan has put out all but its last, unfilled block |
| FirMachine.RunIsStream | include/fir/fir.h:3-4 | over any run without clear, failed calls included, each channel puts out what a filter carrying its delay line puts out |
| FirMachine.RunIsReference | tests/test_fir.cpp:137-165 | from a fresh plan this is the one-shot reference of the channel's concatenated blocks |
| FirMachine.FailedCallsLeaveNoTrace | src/backends/ipp/ipp_fir_backend.cpp:75-87 | without its failed calls a run has the same outputs and the same final state |
| FirMachine.SuccessfulKeepsOrder | src/backends/ipp/ipp_fir_backend.cpp:75-87 | the successful calls of a run are all its calls but the failed ones, in their order |
| FirMachine.ClearEqualsFresh | tests/test_fir.cpp:167-171 | after a clear, whatever came before, a plan puts out what a new plan puts out |
| FirMachine.ChannelsAreIndependent | tests/test_fir.cpp:192-199 | each channel of a batched plan behaves over every run as a plan of its own |
| FirMachine.SameCallsSameOutputs | src/backends/cmsis/cmsis_fir_backend.cpp:112-125 | plans of any two backends with the same successful calls have put out the same |
| FirBackends.BackendsAgree | src/backends/cmsis/cmsis_fir_backend.cpp:112-125 | real plans of the portable, IPP and CMSIS backends with the same taps and the same successful calls have put out the same |
| FirBackends.PortableAndIppAgree | src/backends/ipp/ipp_fir_backend.cpp:66-88 | portable and IPP plans agree for every combination of sample and tap types |
| FirBackends.PortablePlanIsReference | tests/test_fir.cpp:137-165 | what a portable plan has put out since its creation is the one-shot reference of what it was fed |
| FirBackends.IppPlanIsReference | tests/test_fir.cpp:137-165 | the same for an IPP plan, counting the calls that succeeded |
| FirBackends.CmsisPlanIsReference | tests/test_fir.cpp:137-165 | the same for a CMSIS plan |
| FirArithmetic.AllLawful | src/backends/portable/fir_backend.cpp:100-107 | the three combinations of sample and tap types meet the law the streaming theorems need |
| FirArithmetic.UnitImpulse | src/backends/portable/fir_backend.cpp:100-107 | plans of all three types answer a unit impulse with exactly their taps |
| FirArithmetic.ComplexRealTapsIsTwoRealPlans | src/backends/portable/fir_backend.cpp:104-105 | a complex plan with real taps is two real plans, on the real and on the imaginary stream |
| FirArithmetic.ComplexIsFourRealPlans | src/backends/portable/fir_backend.cpp:106-107 | a complex plan is four real plans, combined as the parts of a complex product |
| FirArithmetic.Superposition | src/backends/portable/fir_backend.cpp:51-58 | over whole runs and any blocks, every output for the stream a x + b y is a times the output for x plus b times the output for y |
| FirArithmetic.ComplexSuperposition | src/backends/portable/fir_backend.cpp:51-58 | the same, output by output, for complex plans with complex weights |
| FirArithmetic.RealTapsAreComplexTaps | src/backends/portable/fir_backend.cpp:104-107 | a complex plan with real taps puts out what a complex plan with these taps puts out |
| FirArithmetic.RealTapsSuperposition | src/backends/portable/fir_backend.cpp:51-58 | the same, output by output, for complex plans with real taps, with complex weights |
| PortableFir.Plan.constructor | src/backends/portable/fir_backend.cpp:14-20 | a new plan has been fed nothing |
| PortableFir.Plan.Filter | src/backends/portable/fir_backend.cpp:51-58 | the double loop filters the block against the channel's slice of the history, every read inside the slices, every write inside the output slice |
| PortableFir.Plan.SaveHistory | src/backends/portable/fir_backend.cpp:60-65 | the slice becomes the last samples of old history and block, whatever the scratch held before |
| PortableFir.Plan.ExecuteChannel | src/backends/portable/fir_backend.cpp:46-66 | one pass of the batch loop touches its own slices of output and history only |
| PortableFir.Plan.Execute | src/backends/portable/fir_backend.cpp:40-69 | each channel's output is the stretch of the one-shot reference that follows everything fed since the last clear |
| PortableFir.Plan.Clear | src/backends/portable/fir_backend.cpp:33-37 | zeroing the history makes the plan one that was fed nothing |
| PortableFir.MakeBackendPlan | src/backends/portable/fir_backend.cpp:91-98 | a plan is made if and only if taps are given, at least one, and block and batch are at least 1; everything else is an invalid argument; the plan has been fed nothing |
| IppFir.MapStatus | src/backends/ipp/ipp_fir_backend.cpp:52-58 | only the library's success maps to success; its length, algorithm and pointer errors keep their meaning and every other code is a backend error |
| IppFir.Plan.FilterChannel | src/backends/ipp/ipp_fir_backend.cpp:75-84 | one library call reads the current delay slice, and on success fills its output slice and the other buffer's slice |
| IppFir.Plan.FilterAll | src/backends/ipp/ipp_fir_backend.cpp:75-84 | the batch loop filters every channel before the first failing one, returns that one's status and leaves the later channels' output alone |
| IppFir.Plan.Execute | src/backends/ipp/ipp_fir_backend.cpp:66-88 | if all channels succeed the buffers are swapped and the outputs are the reference's; if one fails its status is returned and every delay line is as before, earlier channels' included |
| IppFir.Plan.Clear | src/backends/ipp/ipp_fir_backend.cpp:90-96 | clearing both buffers clears the current one, whichever it is |
| CmsisFir.ReversedTapsAgree | src/backends/cmsis/cmsis_fir_backend.cpp:112-117 | reversed taps slid over a window, oldest sample first, give what the forward taps give newest sample first |
| CmsisFir.LibraryFilter | src/backends/cmsis/cmsis_fir_backend.cpp:8-14 | with a state of tapCount + blockSize - 1 samples, the library's three steps filter the block and leave the new delay line in front |
| CmsisFir.Plan.constructor | src/backends/cmsis/cmsis_fir_backend.cpp:107-125 | the loops reverse the taps and give every channel its own slice; a new plan has been fed nothing |
| CmsisFir.Plan.FilterChannel | src/backends/cmsis/cmsis_fir_backend.cpp:77-80 | running one instance leaves the other channels' slices alone |
| CmsisFir.Plan.Execute | src/backends/cmsis/cmsis_fir_backend.cpp:71-82 | each channel's output is the same stretch of the reference as the portable backend's |
| CmsisFir.Plan.Clear | src/backends/cmsis/cmsis_fir_backend.cpp:84-91 | zeroing the whole state buffer makes the plan one that was fed nothing |
| CmsisFir.MakeBackendPlan | src/backends/cmsis/cmsis_fir_backend.cpp:138-155 | malformed requests are invalid arguments; of the well-formed ones exactly the real filters with at most 65535 taps and blocks of at most 4294967295 samples give a plan, the others are unsupported |
| SmoothLength.RealLengthSupported | src/backends/aocl/aocl_backend.cpp:81-85 | the loops end and answer yes exactly when no prime above 7 divides the length |
| SmoothLength.StripAllDecides | src/backends/aocl/aocl_backend.cpp:82-84 | the order in which the four primes are divided out does not matter |
| SmoothLength.SmoothIsProduct | src/backends/aocl/aocl_backend.cpp:78-80 | these lengths are exactly the numbers 2^a * 3^b * 5^c * 7^d |
| SmoothLength.PrimeDividesFactor | src/backends/aocl/aocl_backend.cpp:82-84 | Euclid's lemma, on which the answer rests |
| StrideLayout.PocketBuffersAreTiled | src/backends/pocketfft/pocketfft_backend.cpp:113-138 | for every type, length, batch and precision, the byte strides put the elements into disjoint cells that fill both buffers exactly |
| StrideLayout.BytesDoNotCollide | src/backends/pocketfft/pocketfft_backend.cpp:113-138 | spelled out by the strides: every byte of every element lies inside the buffer and no two share an address |
| StrideLayout.VendorsAgree | src/backends/aocl/aocl_backend.cpp:95-107 | every byte of every element lies where AOCL's and ArmPL's row distances and element strides put it, and their scalar counts are the same extents |
| PlanOwnership.NoDoubleFree | include/fft/fft.h:96-110 | balanced books mean that nothing is freed twice, nothing owned is freed and nothing has two owners |
| PlanOwnership.NoLeak | include/fft/fft.h:96-110 | and that whatever was obtained and not freed has an owner |
| PlanOwnership.Program.Destroy | src/backends/armpl/armpl_backend.cpp:113-118 | called on a state of its own type, the destroy function frees what the state holds, each once, and skips what was never obtained |
| PlanOwnership.Program.MakeArmpl | src/backends/armpl/armpl_backend.cpp:205-249 | with both buffers and the plan granted, all four resources are in an ArmPL state of the right precision, next to ArmPL's destroy function; at whichever step it fails the status is a backend error and all that was obtained is freed |
| PlanOwnership.Program.MakeAocl | src/backends/aocl/aocl_backend.cpp:177-184 | a granted setup gives an AOCL state with its handle and AOCL's destroy function; a failed one, found by the caller, is a backend error and leaves nothing behind |
| PlanOwnership.Program.MakeMkl | src/backends/mkl/mkl_backend.cpp:85-109 | a descriptor that is created and configured goes into an MKL state with MKL's destroy function; a failing step is a backend error, and a descriptor older than the state block is freed by hand |
| PlanOwnership.Program.MakePocket | src/backends/pocketfft/pocketfft_backend.cpp:140-155 | a warmed-up block becomes a PocketFFT state of the right precision with its destroy function; a failed warm-up is a backend error and frees the block |
| PlanOwnership.Program.MakeCmsis | src/backends/cmsis/cmsis_backend.cpp:138-165 | an initialized block becomes a CMSIS state with its destroy function; a refused length is an unsupported length and frees the block |
| PlanOwnership.Program.Adopt | src/common/fft.cpp:29-34 | state and destroy function of a dispatch record get one owner; a failed factory leaves the program's plans as they were |
| PlanOwnership.Program.MoveConstruct | include/fft/fft.h:96 | moving into a new plan keeps the books balanced, takes the destroy function along and empties the source |
| PlanOwnership.Program.MoveAssign | include/fft/fft.h:97 | moving onto a plan frees exactly what that plan owned, with the destroy function that came with it, before the new one is taken over; onto itself, nothing |
| PlanOwnership.Program.Drop | include/fft/fft.h:98 | the end of a plan frees exactly what it owned, with its own destroy function |
| PlanOwnership.Program.DropAll | include/fft/fft.h:98 | when every plan is gone, every resource ever obtained has been freed exactly once, and every state by the function it was created with |
| PlanOwnership.Create | src/common/fft.cpp:29-34 | each request ends in a new last plan with the state, the precision, the handles and the destroy function of its own backend, or in the exact failure status with the plans as they were; the books stay balanced |
| BenchNames.ValueOfDecimal | bench/bench_fir.cpp:82-83 | reading a printed number gives the number |
| BenchNames.NoLeadingZero | bench/bench_fir.cpp:82-83 | 0 is printed as one digit and no other number starts with a zero |
| BenchNames.DecimalOfValue | bench/bench_fft.cpp:83 | every digit string without a leading zero is the printed form of its value |
| BenchNames.FirParts | bench/bench_fir.cpp:82-84 | the parts of a FIR benchmark's name, in order, are the operation, real, f32, block, the block size, taps and the tap count |
| BenchNames.FftParts | bench/bench_fft.cpp:83 | those of an FFT benchmark's name are the operation, c2c, f32 and the length |
| BenchNames.FirNameIsRead | tools/run_benchmarks.py:98-113 | the parser recovers operation and size from the printed name, with or without a repetition tail |
| BenchNames.BlockWithoutTaps | tools/run_benchmarks.py:103-111 | with a block size but no readable tap count, the block size is the size |
| BenchNames.LastNumberIsSize | tools/run_benchmarks.py:112-113 | without a readable block size the last number of the name is the size, and there is none if the name has no number |
| BenchNames.FirNameRoundTrip | tools/run_benchmarks.py:259-263 | and the splitter recovers block and tap count from that size |
| BenchNames.FirSizeSplits | tools/run_benchmarks.py:259-263 | the splitter gives two numbers if and only if the size is two digit strings with an x between them, and these are their values |
| BenchNames.PointsDoNotCollide | tools/run_benchmarks.py:121-126 | two printed names give the same result key if and only if operation, block and tap count are the same |
| BenchNames.SortsAsNumberPairs | tools/run_benchmarks.py:173-179 | the sort key orders FIR sizes as pairs of numbers |
| BenchNames.SortKeyCases | tools/run_benchmarks.py:173-179 | the key of a FIR size is its two numbers, of a plain number that number and 0, of anything else two zeros, always with the size itself |
| BenchNames.TextOrder | tools/run_benchmarks.py:173-179 | sizes with equal numbers sort as text: a prefix first, otherwise by the first character that differs |
| BenchNames.FftNameRoundTrip | tools/run_benchmarks.py:112-113 | the length in an FFT benchmark's name is recovered, and sorted as a number |

## Left out

- Floating-point rounding, NaN and the tests' tolerances: the adapters' own logic does not depend on them.
- Fast transform algorithms and the insides of the vendor libraries: their calls are modelled by what they compute.
- Existence of an exact primitive root for every N: it needs the trigonometric functions; the twiddle is a parameter.
- AOCL's `execute`, which adds an early return to ArmPL's scaling, and MKL's and PocketFFT's, which hand the scale factor to the library.
- liquid, KFR and vDSP FIR and FFT wrappers that only forward slices to the library.
- The FFT factories' argument checks: plain case distinctions, like those of the FIR factories.
- The IPP factory's checks: `IppFir.Plan` starts from a successful initialization; its cleanup has the shape of `PlanOwnership.Program.MakeCmsis`.
- Opaque type-erased pointers: each transform type has its own method in place of the switch inside `execute`.
- IppFir.LibraryFilter: a failing call is modelled as free to change its two destination slices and nothing else, which is how the adapter uses it; the library's own rules are not part of this model.
- CmsisFft.RealPlan.ExecuteForward: the library's table of supported lengths is not modelled; every even length is admitted.
- Null-pointer checks of the public `execute`, status strings, workspace sizes and backend names.
- `execute` on a moved-from plan and concurrent calls on one plan: both outside the stated contract.
- bad_alloc and other exceptions outside the explicit failure branches.
- BenchNames.IsDigit: ASCII digits only; Python's `isdigit` also accepts other digit characters, which the printers never emit.
- The rest of the benchmark tooling: tables, graphs, JSON and CPU detection.
