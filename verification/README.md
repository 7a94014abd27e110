# Verification of the CNN processor firmware

The repository drives a cellular neural network (CNN) processor in an FPGA from a MicroBlaze. The firmware keeps twenty
images and a table of templates, serves a host over a UART, copies images to and from the processor's RAMs, and runs
five algorithms: one run, a pipeline of four runs, and three closed learning loops. This project models the firmware
and proves what it computes and what it keeps, for every processor, every image and every run. What a run computes is
stated for images that fit the processor's RAMs, with the exact condition; that it depends on its inputs only, what it
leaves alone, and the order of bus accesses are proved for every size. The project also covers the checksum, alignment
and address arithmetic of the lwIP stack that is built with it.

## How it is organised

| file | contents |
|---|---|
| `Words`, `Grids`, `Bits` | integer widths and narrowing conversions, 3 x 3 coefficient arrays, bitwise operators |
| `Pictures` | images, their row-major layout, and the address arithmetic of the driver |
| `Hardware`, `Protocol`, `Device` | the processor behind its registers, a monitor that sees every bus access, and what its verdict means |
| `Semantics` | what each operation does, as a function on the whole state (`World`) |
| `ImageStore`, `Firmware`, `Sections` | the C globals as classes and the C functions as methods with their loops, proved against `Semantics`; `Sections` holds what the loops have done part of the way through |
| `Driving`, `Learning`, `Scaling`, `Pipeline`, `Runs`, `Host` | the theorems about the driver, the learning loops, the scaled errors, the pipeline, whole runs, and what a host sees |
| `RegisterMap` | why the memory-mapped registers can be treated as separate variables |
| `Checksum`, `MemAlign`, `Addresses` | lwIP: the Internet checksum, alignment, header and address packing |

The firmware is imperative, over globals, and so is `Firmwares.Firmware`: the loop counters `general.i`, `general.j` and
`general.k` are shared fields, the image store is a table of tables of separately allocated row arrays, coefficients
pass through the field `templateVar`, and every device access is a call on the object `device`. A method states either
the whole new state as a function of the old one or the fields it changes; its `modifies` clause says that a learning
loop's counter is not written by what the loop calls, which is what makes the loops end. Long C functions are split into
methods for their sections, called in the order of the source.

The processor is a parameter `Chip(cells, run, delay)`: the size of its RAMs, any function from its hidden state and the
job it is given to the new x RAM, the error registers and the next hidden state, and any number of polls until ready. No
theorem depends on what it computes. The hidden state stands for everything a run may leave behind, such as the random
number generator.

The monitor is a ghost state machine that sees only bus accesses. It stops being `safe`, for good, at a store to a busy
processor, at a read of a result before ready was seen, and when reset is released before all four configuration
registers, all 21 coefficients and exactly width * height write-enable pulses per RAM were written since the last
release. `Device` also keeps the sequence of all accesses made, and `Protocol` proves what the verdict means in terms of
that sequence.

## What the model assumes

- Conversions and overflow follow gcc on a 32-bit two's complement target: narrowing keeps the low bits, `/` truncates
  toward zero, and signed products wrap at 32 bits.
- The processor of the model: a run makes progress only when the firmware polls it, and it ends after `delay` polls. Between reset and ready the
  firmware only polls, so nothing it does could see a difference.
- `malloc` and `calloc` succeed and give memory not in use.
- The host's bytes are a sequence `inbox`, read in order; a request needs its bytes to be there. Bytes sent are appended
  to `sent`. Waiting for the UART is not modelled.
- Template numbers and image slots that a request uses lie in their tables, and an image has pixels where errors are
  divided by the number of pixels: for the error download and for a learning command with at least one turn. The C code
  does not check these and its behaviour is undefined without them; in the model they are `Servable`.
- The template table has the 15 entries of `template_init.txt`, with any coefficients.

The functions of `src/SDK/mpu_sw/src/sys/sys_func.c` are cited below by their prototypes in `sys_func.h`, with the lines
of the body in the third column.

## Where the code differs from what one would expect

- The firmware passes a 16-bit address, but the address port of each RAM is 14 bits wide (`src/ISE/mpu/mpu.mhs:75-84`),
  so images of more than 16384 pixels overwrite their own beginning. The model has the number of cells as a parameter
  and proves the exact condition, in both directions, for the address expression (`Pictures.InjectiveExactlyWhenFits`),
  for a RAM written and read back (`Driving.RoundTripExactlyWhenFits`) and for the driver with a run in between
  (`Driving.DriverRightExactlyWhenFits`).
- The clamp of `template_pixel_update` compares a 32-bit sum with the 32-bit limits, so it can never act, for any
  32-bit error; what limits a coefficient is wrapping at 16 bits (`Firmwares.Firmware.TemplatePixelUpdate`,
  `Learning.NoWrapExactly`).
- `error_get` multiplies in 32 bits before it divides, so a large error can vanish: an error register of 0x1000000 with
  rate 1024 and 16384 pixels gives 0 instead of 1024. `Scaling.ScaledExactly` gives the exact condition.
- `init_l2cache` asks for 128 x 128, and `l2cache_setdimensions` accepts only less than 128, so nothing is written.
- A host that asks for the errors before any run, or after a header and before the next run, makes the firmware read
  the error registers of a processor held in reset (`Runs.ErrorsFirstIsUnsafe` is the shortest case). That is the only
  way to an unsafe access: `Runs.RunSafeExactly` and `Runs.RunFromResetSafeExactly` prove that a run is safe if and only
  if no such request is among the bytes the firmware has served. A learning command counts as a run only if the header before it
  asked for at least one turn.
- `LWIP_MEM_ALIGN_SIZE` wraps to zero for sizes within one alignment of 2^32; `MemAlign.AlignSizeExact` gives the exact
  condition.

## Model

| member | source | states |
|---|---|---|
| Driving.DriverMeaning | src/SDK/mpu_sw/src/cnn/cnn_func.c:11-41 | For every processor and every size that fits its RAMs, a driver call makes the processor see exactly the row-major flattening of the three slots; slot x becomes the picture of the result even when u, x and ideal coincide; every other slot, template and parameter is unchanged |
| Driving.DriverRightExactlyWhenFits | src/SDK/mpu_sw/src/cnn/cnn_func.c:11-41 | From every state and for all arguments, the driver leaves the right pictures with every processor of a RAM size if and only if the images fit that size |
| Driving.DriverWrong | src/SDK/mpu_sw/src/cnn/cnn_func.c:11-41 | The counterexample: whenever the images do not fit, a processor that lights only the first pixel comes back with a second bright one |
| Driving.DriveDependsOnly | src/SDK/mpu_sw/src/cnn/cnn_func.c:11-41 | For images of any size: two states with the same size, three pictures, template and processor get the same picture, errors and hidden state from a driver call, whatever else they hold, old RAM contents included |
| Driving.FilledForgets | src/SDK/mpu_sw/src/cnn/cnn_func.c:20-28 | Loading n pixels, with or without addresses that wrap, settles every cell below n: nothing of the old contents is left there |
| Driving.UnloadedAgrees | src/SDK/mpu_sw/src/cnn/cnn_func.c:34-40 | Unloading reads no cell at or above width * height, for any size |
| Driving.DriverFrame | src/SDK/mpu_sw/src/cnn/cnn_func.c:11-41 | For images of any size, also those that do not fit: only slot x, the device and the monitor change |
| Driving.DirectMeaning | src/SDK/mpu_sw/src/cnn/cnn_algorithm.c:37-43 | For images that fit the RAMs: direct CNN puts the processor's answer to slots 0, 1 and 2 with the named template into slot 1, sends two acknowledgements and changes nothing else of the store |
| Driving.DirectFrame | src/SDK/mpu_sw/src/cnn/cnn_algorithm.c:37-43 | For images of any size: direct CNN changes no slot but 1, no template, no parameter and no error record |
| Driving.RoundTripExactlyWhenFits | src/SDK/mpu_sw/src/cnn/cnn_func.c:20-40 | Every picture of a size survives being written to a RAM and read back if and only if that size has no more pixels than the RAM has cells |
| Driving.FilledPrefix | src/SDK/mpu_sw/src/cnn/cnn_func.c:20-28 | Loading n pixels makes the first n cells the pixels and keeps all others |
| Driving.LostPicture | src/SDK/mpu_sw/src/cnn/cnn_func.c:20-40 | The counterexample: a picture with one bright pixel, of any size that does not fit, comes back different |
| Pictures.InjectiveExactlyWhenFits | src/SDK/mpu_sw/src/cnn/cnn_func.c:24-26 | The address expression gives different pixels different cells if and only if the picture fits the RAM |
| Pictures.SharedCell | src/ISE/mpu/mpu.mhs:75-84 | In a picture that is too large for the address port, pixel number `cells` shares the cell of pixel 0 |
| Pictures.Onto | src/SDK/mpu_sw/src/cnn/cnn_func.c:24-26 | When the picture fits, the cells used are exactly those below width * height |
| Pictures.UnflattenFlatten | src/SDK/mpu_sw/src/cnn/cnn_func.c:34-40 | Cutting a flattened picture into rows gives the picture back |
| Pictures.FlattenUnflatten | src/SDK/mpu_sw/src/cnn/cnn_func.c:34-40 | Flattening inverts cutting into rows, element by element |
| Learning.LearningIsIteration | src/SDK/mpu_sw/src/cnn/cnn_algorithm.c:65-76 | For images that fit the RAMs: after n turns of any of the three learning loops the state is the n-fold iteration of one pure step on templates 1 and 2, image slot 1 and the processor's hidden state, for every processor and every n; nothing else takes part and nothing else changes |
| Learning.LearningAlgorithmMeaning | src/SDK/mpu_sw/src/cnn/cnn_algorithm.c:59-79 | For images that fit the RAMs: algorithm3, algorithm4 and algorithm5 as a whole are exactly learn_loop such steps from zeroed templates and the current slot 1 |
| Learning.TurnMeaning | src/SDK/mpu_sw/src/cnn/cnn_algorithm.c:89-106 | For images that fit the RAMs: one turn: run with template 1, scale the errors of that run, add them; multilayer: run again with template 2 on the new image and add the same errors to template 2 |
| Learning.LearnedCoefficients | src/SDK/mpu_sw/src/cnn/cnn_algorithm.c:59-130 | For images that fit the RAMs: at the end of algorithm3, algorithm4 and algorithm5 each coefficient of template 1 (and of template 2 in multilayer learning) is the exact sum of the scaled errors of all their runs, computed along the pure iteration, reduced to 16 bits once |
| Learning.TraceIsOfTheRuns | src/SDK/mpu_sw/src/cnn/cnn_algorithm.c:65-76 | For images that fit the RAMs: the error record of every turn is the scaled error registers of the run made in that turn |
| Learning.LearnRegisters | src/SDK/mpu_sw/src/cnn/cnn_algorithm.c:65-127 | For images that fit the RAMs: the error registers a learning loop leaves are those of its last run; in multilayer learning that is the run with template 2 |
| Learning.LearningDependsOnly | src/SDK/mpu_sw/src/cnn/cnn_algorithm.c:65-127 | For images of any size: two states that agree on the setting and the learnt values agree on the learnt values, the error record and the error registers after any number of turns, whatever else they or the RAMs hold |
| Learning.LearningAlgorithmDependsOnly | src/SDK/mpu_sw/src/cnn/cnn_algorithm.c:59-130 | For images of any size: what the algorithms learn depends only on slots 0, 1 and 2, the parameters and the processor |
| Scaling.ScaledExactly | src/SDK/mpu_sw/src/sys/sys_func.h:32 | The scaled error is the exact quotient of error times rate by 1024 times the pixels if and only if the product is a 32-bit and the quotient a 16-bit number, or the product is smaller than the divisor; for every error, rate and number of pixels (body at sys_func.c:195-218) |
| Scaling.ScaledCharacterised | src/SDK/mpu_sw/src/sys/sys_func.h:32 | In every case, exact or not, the scaled error is what 32-bit reduction of the product, truncating division and 16-bit reduction give, whichever numbers satisfy those three conditions (body at sys_func.c:195-218) |
| Scaling.ScaledRecord | src/SDK/mpu_sw/src/sys/sys_func.h:32 | Cell by cell: each of the 19 numbers of the error record is the register of the same name and place, scaled (body at sys_func.c:195-218) |
| Scaling.QuotientBounds | src/SDK/mpu_sw/src/sys/sys_func.h:32 | The division truncates toward zero, for both signs of the product (body at sys_func.c:195-218) |
| Scaling.ScaledWraps | src/SDK/mpu_sw/src/sys/sys_func.h:32 | An input for which it is not: error 0x1000000, rate 1024, 16384 pixels give 0 instead of 1024 (body at sys_func.c:195-218) |
| Learning.LearnsBySummation | src/SDK/mpu_sw/src/cnn/cnn_algorithm.c:65-76 | For images of any size, template 1 at every loop head is the sequence of updates by the error records of the turns so far |
| Learning.CoefficientIsWrappedSum | src/SDK/mpu_sw/src/cnn/cnn_func.c:86-170 | After any sequence of updates each coefficient is its start plus the exact sum of the errors applied to it, reduced to 16 bits once, whatever wrapped on the way |
| Learning.NoWrapExactly | src/SDK/mpu_sw/src/cnn/cnn_func.c:86-170 | From zero, a coefficient equals the exact sum of its errors if and only if that sum is a 16-bit number |
| Learning.NoWrapBound | src/SDK/mpu_sw/src/cnn/cnn_func.c:111-114 | If every error has magnitude at most m and the number of updates times m is at most 32767, every coefficient is its exact error sum, bounded by k * m after k updates |
| Learning.UpdateAdds | src/SDK/mpu_sw/src/cnn/cnn_func.c:138-170 | One update of either kind adds the applied error to every coefficient of the template, reduced to 16 bits |
| Learning.MultilayerTemplatesEqual | src/SDK/mpu_sw/src/cnn/cnn_algorithm.c:88-105 | Templates 1 and 2 are equal at every loop head of multilayer learning if they are at the first |
| Learning.MultilayerAlgorithmTemplatesEqual | src/SDK/mpu_sw/src/cnn/cnn_algorithm.c:81-108 | ... so they are equal when algorithm4 returns, from every state |
| Learning.LearningStaysOneDimensional | src/SDK/mpu_sw/src/cnn/cnn_func.c:138-154 | 1-D learning from zero keeps rows 0 and 2 of A and B and both boundary values at zero, for every sequence of errors |
| Learning.UpdatesAgreeExactly | src/SDK/mpu_sw/src/cnn/cnn_func.c:138-170 | The 2-D update equals the 1-D update if and only if the errors of rows 0 and 2 are zero, from any template |
| Learning.SecondReadRedundant | src/SDK/mpu_sw/src/cnn/cnn_algorithm.c:117-127 | 2-D learning, which reads the errors twice a turn, has exactly the same state after n turns as the loop that reads them once |
| Pipeline.PipelineMeaning | src/SDK/mpu_sw/src/cnn/cnn_algorithm.c:45-57 | For images that fit the RAMs: slots 1, 3 and 4 end as the last, second and third stage of the intended composition of four runs (templates 2, 12, 8, 4) that begin from pictures with every pixel zero; no other image, template or parameter changes |
| Pipeline.PipelineDependsOnlyOnInput | src/SDK/mpu_sw/src/cnn/cnn_algorithm.c:45-57 | For images of any size: two states that agree on slots 0 and 2, those templates and the processor end with equal slots 1, 3 and 4, errors and hidden state, whatever else they or the RAMs hold |
| Pipeline.StageMeaning | src/SDK/mpu_sw/src/cnn/cnn_algorithm.c:50-55 | For images that fit the RAMs: one stage is the processor's answer to the current slots, put into one slot |
| Runs.RunsSafely | src/SDK/mpu_sw/src/cnn/cnn_algorithm.c:11-130 | Over any sequence of algorithm_run commands: no store to a busy processor, no result read before ready, reset released only after all four configuration registers, all 21 coefficients and width * height pulses per RAM; exactly 1, 4, learn_loop, 2 * learn_loop, learn_loop starts; slots 0, 2, 5..19 and all templates but 1 and 2 unchanged |
| Runs.RunSafeExactly | src/SDK/mpu_sw/src/main.c:18-44 | Over every run of main, whatever the host sends: all bus accesses are safe if and only if each request for errors among the bytes served comes after a command that started the processor since the last header; the condition is a recursion on the bytes alone |
| Runs.RunFromResetSafeExactly | src/SDK/mpu_sw/src/main.c:13-44 | The same from init_system, where the condition depends on nothing but the bytes the host sends |
| Runs.TurnIsHeard | src/SDK/mpu_sw/src/main.c:18-44 | What a host concludes from a request is what happened: the bytes consumed, the size and loop count in force, and whether a finished run is there: after a header never, after a command if it starts the processor or one was there, otherwise if one was there |
| Runs.CommandFinishes | src/SDK/mpu_sw/src/cnn/cnn_algorithm.c:11-35 | After a command a finished run is there if and only if the command started the processor or one was there before |
| Runs.SafeExactlyWhenOrderly | src/SDK/mpu_sw/src/main.c:18-44 | The same in terms of the states: safe if and only if each request for errors finds a finished run |
| Runs.ErrorsFirstIsUnsafe | src/SDK/mpu_sw/src/sys/sys_func.h:33 | The shortest unsafe input: after init_system the single byte 4 is served and loses safety (body at sys_func.c:220-222) |
| Runs.TurnKeepsInvariant | src/SDK/mpu_sw/src/main.c:18-44 | Every orderly turn of main, one that asks for errors only of a finished run, keeps the invariant of the bus: what the monitor saw is what the processor does, no pulse left over, templates other than 1 and 2 unchanged |
| Runs.DisorderlyIsUnsafe | src/SDK/mpu_sw/src/sys/sys_func.h:33 | Asking for the errors while the processor is in reset reads its error registers before ready (body at sys_func.c:220-222) |
| Runs.ResetIsClean | src/SDK/mpu_sw/src/sys/sys_init.c:138-151 | init_system establishes the invariant from power-up, so every sequence of commands after it is safe and starts the processor exactly as often as the commands say |
| Runs.ResetState | src/SDK/mpu_sw/src/sys/sys_init.c:27-61 | After init_system: 20 slots of 128 x 128 pixels, each zero; time step 1, 3 iterations, template 0, 100 learning turns, rate 10; templates and errors as before; the processor in reset |
| Runs.LearnSafely | src/SDK/mpu_sw/src/cnn/cnn_algorithm.c:65-127 | n turns of a learning loop are n (multilayer: 2n) safe runs and send nothing |
| Runs.CommandSafely | src/SDK/mpu_sw/src/cnn/cnn_algorithm.c:11-35 | One command is exactly as many safe runs as its case says, between two acknowledgements; only command 1 needs the template number of the host to be in the table |
| Runs.CommandFrame | src/SDK/mpu_sw/src/cnn/cnn_algorithm.c:11-130 | For images of any size, what each command can change: direct CNN slot 1; the pipeline slots 1, 3 and 4; the learning commands slot 1, template 1 (multilayer also 2) and the error record; an unknown command nothing at all |
| Host.Session | src/Matlab/func_fpga/fpga_run_algorithm.m:1-25 | A whole session (header, three images, any command byte, image download, error download): for every processor, every size that fits and all images, the bytes the host gets back are exactly what that command computes from what it sent; and the session is safe on the bus if and only if the command starts the processor |
| Host.CommandShows | src/SDK/mpu_sw/src/cnn/cnn_algorithm.c:11-130 | For images that fit the RAMs: slot 1 and the error registers after each command, known or not, are a pure function of the pictures, the parameters, the template table and the hidden state |
| Host.CommandRequest | src/SDK/mpu_sw/src/cnn/cnn_algorithm.c:11-35 | For images of any size: a command request is that command on the state after its two bytes, and changes only what that command may |
| Host.CommandServed | src/SDK/mpu_sw/src/cnn/cnn_algorithm.c:11-35 | For images that fit the RAMs: a request for a command is served, acknowledged, and leaves that result for the downloads that follow |
| Host.ErrorsServed | src/SDK/mpu_sw/src/sys/sys_func.h:33 | A request for errors sends the scaled registers of that moment as one message and consumes one byte (body at sys_func.c:220-248) |
| Host.ErrorsDownloaded | src/Matlab/func_fpga/fpga_get_error.m:1-34 | Each of the 19 numbers the host decodes from an error download is the register of that name and place, scaled |
| Host.OtherServed | src/SDK/mpu_sw/src/main.c:41-42 | A request byte the firmware does not know is consumed and nothing else happens |
| Host.TemplateServed | src/SDK/mpu_sw/src/sys/sys_func.h:36 | A request for a template sends that template as one message and consumes three bytes (body at sys_func.c:269-308) |
| Host.UploadServed | src/SDK/mpu_sw/src/sys/sys_func.h:29 | An uploaded picture arrives in the slot the host names, and no other slot changes (body at sys_func.c:165-178) |
| Host.HeaderArrives | src/Matlab/func_fpga/fpga_send_header.m:1-27 | For all seven numbers a host can send, each arrives in the field it is meant for, in the order of the host program; the iterations are stored as one less, so 0 becomes 65535; every pixel of every slot is zero; the processor registers take the size and the parameters |
| Host.HeaderServed | src/SDK/mpu_sw/src/sys/sys_func.h:26 | The whole state after a header: size, parameters, images and the processor's registers change, one acknowledgement goes out, 15 bytes are consumed, and nothing else changes (body at sys_func.c:107-152) |
| Host.DecodeEncode | src/SDK/mpu_sw/src/sys/sys_func.h:29 | What the host encodes is what the firmware stores, for every picture, whatever follows on the wire (body at sys_func.c:165-178) |
| Host.EncodeDecode | src/SDK/mpu_sw/src/sys/sys_func.h:29-30 | Sending an uploaded picture back sends exactly the bytes that came in (body at sys_func.c:165-193) |
| Host.TemplateMessageDecodes | src/Matlab/func_fpga/fpga_get_template.m:9-36 | The 42 bytes of a template give the host A, B, I and both boundary values back, signs included |
| Host.ErrorMessageDecodes | src/Matlab/func_fpga/fpga_get_error.m:5-34 | The 76 bytes of an error message give the host the x, u and bias errors back, signs included |
| Firmwares.Firmware.CnnDriver | src/SDK/mpu_sw/src/cnn/cnn_func.c:11-41 | The C loops over the device registers and the image rows compute exactly `Drive` on the whole state, for images of any size, and change nothing else |
| Firmwares.Firmware.ConfigureRun | src/SDK/mpu_sw/src/cnn/cnn_func.c:13-18 | All four configuration registers and all 21 coefficients are written |
| Firmwares.Firmware.LoadCaches | src/SDK/mpu_sw/src/cnn/cnn_func.c:20-28 | The nested loops write the flattening of the three slots in order and pulse each write enable width * height times |
| Firmwares.Firmware.LoadRow | src/SDK/mpu_sw/src/cnn/cnn_func.c:22-27 | The inner loop writes one row of each of the three images, at the cells after those already written |
| Firmwares.Firmware.StartAndWait | src/SDK/mpu_sw/src/cnn/cnn_func.c:30-32 | Pulsing reset starts the processor and the polling loop ends, with the run's outcome and ready seen |
| Firmwares.Firmware.UnloadResult | src/SDK/mpu_sw/src/cnn/cnn_func.c:34-40 | The nested loops put the picture in the x RAM into slot x and change no other row |
| Firmwares.Firmware.TemplatePixelCreate | src/SDK/mpu_sw/src/cnn/cnn_func.c:43-69 | The named coefficient takes the value; its saturation is never taken |
| Firmwares.Firmware.TemplateCreate | src/SDK/mpu_sw/src/cnn/cnn_func.c:71-84 | The template becomes zero in all 21 coefficients, no other changes |
| Firmwares.Firmware.TemplatePixelUpdate | src/SDK/mpu_sw/src/cnn/cnn_func.c:86-136 | For every 32-bit error the coefficient becomes old value plus error reduced to 16 bits: the clamp to errorMax and errorMin is never taken |
| Firmwares.Firmware.TemplateUpdate1d | src/SDK/mpu_sw/src/cnn/cnn_func.c:138-154 | Rows 1 of A and B and the bias take the errors; everything else in every template stays |
| Firmwares.Firmware.TemplateUpdate2d | src/SDK/mpu_sw/src/cnn/cnn_func.c:156-170 | Reads the errors afresh and adds them to all rows and the bias |
| Firmwares.Firmware.AlgorithmRun | src/SDK/mpu_sw/src/cnn/cnn_algorithm.c:11-35 | Dispatch on the command byte; an unknown command does nothing |
| Firmwares.Firmware.DirectCnn | src/SDK/mpu_sw/src/cnn/cnn_algorithm.c:37-43 | One run on slots 0, 1, 2 with the host's template between two acknowledgements |
| Firmwares.Firmware.CnnPipeline | src/SDK/mpu_sw/src/cnn/cnn_algorithm.c:45-57 | Refines the four-stage pipeline `Algorithm2` |
| Firmwares.Firmware.Learning1d | src/SDK/mpu_sw/src/cnn/cnn_algorithm.c:59-79 | Refines learn_loop turns of 1-D learning; the loop on general.k ends because nothing it calls writes that counter |
| Firmwares.Firmware.LearningMultilayer | src/SDK/mpu_sw/src/cnn/cnn_algorithm.c:81-108 | Refines learn_loop turns of multilayer learning |
| Firmwares.Firmware.Learning2d | src/SDK/mpu_sw/src/cnn/cnn_algorithm.c:110-130 | Refines learn_loop turns of 2-D learning |
| Firmwares.Firmware.ErrorGet | src/SDK/mpu_sw/src/sys/sys_func.h:32 | Each of the 19 fields of the error record is the register of the same name and place, scaled by rate over pixels: 32-bit product, quotient truncated toward zero, 16-bit store (body at sys_func.c:195-218) |
| Firmwares.Firmware.ImageFill | src/SDK/mpu_sw/src/sys/sys_func.h:28 | Every pixel of one slot takes the fixed-point value and no other slot changes, said pixel by pixel (body at sys_func.c:154-163) |
| Firmwares.Firmware.ImageRead | src/SDK/mpu_sw/src/sys/sys_func.h:29 | The named slot becomes the picture the next 2 * width * height bytes encode (body at sys_func.c:165-178) |
| Firmwares.Firmware.ImageSend | src/SDK/mpu_sw/src/sys/sys_func.h:30 | The bytes of the named slot go out in row-major order, high byte first (body at sys_func.c:180-193) |
| Firmwares.Firmware.HeaderRead | src/SDK/mpu_sw/src/sys/sys_func.h:26 | Reset; seven numbers, each into its own field, the iterations less one; four registers; twenty new images of the new size in fresh memory with every pixel zero; one acknowledgement (body at sys_func.c:107-152) |
| Firmwares.Firmware.ErrorSend | src/SDK/mpu_sw/src/sys/sys_func.h:33 | Errors read afresh, then x, u and i in four bytes each (body at sys_func.c:220-248) |
| Firmwares.Firmware.TemplateSend | src/SDK/mpu_sw/src/sys/sys_func.h:36 | The named template in two bytes a coefficient: A, B, I and the boundary values (body at sys_func.c:269-308) |
| Firmwares.Firmware.TemplateSet | src/SDK/mpu_sw/src/sys/sys_func.h:35 | The 21 coefficient registers take the values of one template, each its own (body at sys_func.c:250-267) |
| Firmwares.Firmware.CommandWrite | src/SDK/mpu_sw/src/sys/sys_func.h:19 | Address in the upper and data in the lower half of one store (body at sys_func.c:85-88) |
| Firmwares.Firmware.L2CacheUWrite | src/SDK/mpu_sw/src/sys/sys_func.h:13 | From write enable low, exactly one cell of the u RAM changes, the one at the address modulo the number of cells, and it takes the data; the monitor sees one pulse (body at sys_func.c:45-51) |
| Firmwares.Firmware.L2CacheXWrite | src/SDK/mpu_sw/src/sys/sys_func.h:15 | From write enable low, exactly one cell of the x RAM changes, the one at the address modulo the number of cells, and it takes the data; the monitor sees one pulse (body at sys_func.c:61-67) |
| Firmwares.Firmware.L2CacheIdealWrite | src/SDK/mpu_sw/src/sys/sys_func.h:17 | From write enable low, exactly one cell of the ideal RAM changes, the one at the address modulo the number of cells, and it takes the data; the monitor sees one pulse (body at sys_func.c:77-83) |
| Firmwares.Firmware.L2CacheXRead | src/SDK/mpu_sw/src/sys/sys_func.h:14 | Reads one cell of the x RAM (body at sys_func.c:53-59) |
| Firmwares.Firmware.L2CacheSetDimensions | src/SDK/mpu_sw/src/sys/sys_func.h:11 | Writes both dimensions if both are strictly between zero and the maximum, and otherwise nothing (body at sys_func.c:25-35) |
| Firmwares.Firmware.InitL2Cache | src/SDK/mpu_sw/src/sys/sys_init.c:133-136 | Writes nothing: the maximal dimensions fail their own guard |
| Firmwares.Firmware.InitImage | src/SDK/mpu_sw/src/sys/sys_init.c:34-52 | Twenty images of 128 x 128 in fresh rows, every pixel zero, each row with exactly one owner (slot, row) |
| Firmwares.Firmware.ReplaceImages | src/SDK/mpu_sw/src/sys/sys_func.h:26 | The same for the size of a header (body at sys_func.c:138-150) |
| Firmwares.Firmware.InitSystem | src/SDK/mpu_sw/src/sys/sys_init.c:138-151 | The initial state: every pixel of twenty 128 x 128 images zero, the five default parameters by name, templates kept, processor held in reset |
| Firmwares.Firmware.ServeOne | src/SDK/mpu_sw/src/main.c:18-44 | One turn of the loop of main refines `Served`, for every command byte |
| ImageStores.ImageStore.Put | src/SDK/mpu_sw/src/cnn/cnn_func.c:38 | Writing one pixel changes no other pixel of any slot: no two rows are the same array |
| ImageStores.ImageStore.Or | src/SDK/mpu_sw/src/sys/sys_func.h:29 | The byte joined by bitwise or lands in the low half of that one pixel (body at sys_func.c:175) |
| Semantics.WrittenCell | src/ISE/source/ram_generic.vhd:35-42 | Address, data and a pulse of write enable change one cell, the addressed one, although the RAM writes whenever write enable is high |
| Semantics.CoeffStored | src/SDK/mpu_sw/src/cnn/cnn_func.c:50-68 | Storing to one coefficient of a template changes that one and no other |
| Semantics.FillPixels | src/SDK/mpu_sw/src/sys/sys_func.h:28 | Filling a slot gives each of its pixels the value and changes nothing else (body at sys_func.c:154-163) |
| Semantics.BlackPixels | src/SDK/mpu_sw/src/sys/sys_init.c:43-51 | Newly allocated images have every pixel of every slot zero |
| Semantics.SolidUnique | src/SDK/mpu_sw/src/sys/sys_func.h:28 | There is exactly one picture of a size and colour (body at sys_func.c:154-163) |
| Hardware.CommandsDecoded | src/ISE/source/cnn_commands.vhd:36-58 | The words the firmware stores for its command numbers set the size, the time step, the iterations and the reset; lifting a reset starts the run of everything written so far |
| Protocol.MonitorExact | src/ISE/source/cnn_commands.vhd:36-58 | The monitor calls a sequence of bus accesses safe if and only if no store in it goes to a busy processor, no result is read before ready was seen, and each start comes after all four configuration registers, every coefficient register and one pulse per pixel to each RAM since the last start; and it counts the starts |
| Devices.Device.Verdict | src/SDK/mpu_sw/src/cnn/cnn_func.c:11-41 | The monitor's verdict is about the accesses that were made to the device |
| Hardware.ReadyExactlyAfterDelay | src/ISE/source/cnn_state_machine.vhd:265-274 | Of the processor model, where a run ends after a number of polls: however often it is polled, it is ready if and only if that is more often than it needs, and stays ready; before that nothing changes, from then on the error registers and the first width * height cells of x are those of the run, and no other cell has changed |
| Words.S16Characterised | src/SDK/mpu_sw/src/sys/sys_init.h:48-55 | The 16-bit conversion is the only 16-bit number congruent to its argument, and the identity exactly on the 16-bit range |
| Words.SumStored | src/SDK/mpu_sw/src/cnn/cnn_func.c:111-121 | Mask, cast, 32-bit addition and two narrowings amount to one reduction of the exact sum |
| RegisterMap.PointerAdds | src/SDK/mpu_sw/src/sys/sys_init.c:63-131 | The bitwise or of base and offset in every pointer is their sum |
| RegisterMap.PointerListed | src/SDK/mpu_sw/src/sys/sys_init.c:63-131 | The address of each of the 57 registers, written out |
| RegisterMap.RegistersDisjoint | src/SDK/mpu_bsp/microblaze_0/include/xparameters.h:51-264 | No two of the 57 registers overlap |
| RegisterMap.RegistersIndependent | src/SDK/mpu_sw/src/sys/sys_init.c:63-131 | Over any sequence of stores through the pointers into byte-addressed memory, reading a register gives the last value stored through that same pointer |
| RegisterMap.PeekPoke | src/SDK/mpu_sw/src/sys/sys_init.c:63-131 | A value stored low byte first reads back as itself |
| Checksum.StandardChksum1 | src/SDK/mpu_bsp/microblaze_0/libsrc/lwip140_v1_04_a/src/lwip-1.4.0/src/core/ipv4/inet_chksum.c:80-115 | Algorithm 1 computes the one's complement sum of section 1 of RFC 1071 |
| Checksum.StandardChksum2 | src/SDK/mpu_bsp/microblaze_0/libsrc/lwip140_v1_04_a/src/lwip-1.4.0/src/core/ipv4/inet_chksum.c:134-174 | So does algorithm 2, for every address |
| Checksum.StandardChksum3 | src/SDK/mpu_bsp/microblaze_0/libsrc/lwip140_v1_04_a/src/lwip-1.4.0/src/core/ipv4/inet_chksum.c:190-256 | So does algorithm 3, which the board configures, for every address and every length |
| Checksum.InetChksum | src/SDK/mpu_bsp/microblaze_0/libsrc/lwip140_v1_04_a/src/lwip-1.4.0/src/core/ipv4/inet_chksum.c:395-399 | The complement of that sum |
| Checksum.InetChksumPbuf | src/SDK/mpu_bsp/microblaze_0/libsrc/lwip140_v1_04_a/src/lwip-1.4.0/src/core/ipv4/inet_chksum.c:408-430 | For every buffer and every way to cut it into consecutive pieces at any addresses, the checksum of the pieces is that of the buffer |
| Checksum.CutContents | src/SDK/mpu_bsp/microblaze_0/libsrc/lwip140_v1_04_a/src/lwip-1.4.0/src/core/ipv4/inet_chksum.c:408-430 | A chain is a cut of a buffer, first piece first, if and only if its contents are that buffer |
| Checksum.ContentsConcat | src/SDK/mpu_bsp/microblaze_0/libsrc/lwip140_v1_04_a/src/lwip-1.4.0/src/core/ipv4/inet_chksum.c:408-430 | The contents of two chains joined are the contents of the first followed by those of the second |
| Checksum.ContentsOne | src/SDK/mpu_bsp/microblaze_0/libsrc/lwip140_v1_04_a/src/lwip-1.4.0/src/core/ipv4/inet_chksum.c:408-430 | The contents of one buffer are its payload |
| Checksum.InetChksumPseudo | src/SDK/mpu_bsp/microblaze_0/libsrc/lwip140_v1_04_a/src/lwip-1.4.0/src/core/ipv4/inet_chksum.c:271-317 | Exactly the checksum of the pseudo-header of section 3.1 of RFC 793 followed by the data |
| Checksum.PseudoHeaderFields | src/SDK/mpu_bsp/microblaze_0/libsrc/lwip140_v1_04_a/src/lwip-1.4.0/src/core/ipv4/inet_chksum.c:302-309 | Source, destination, zero, protocol and length, each at its place in the twelve bytes of the pseudo-header |
| Checksum.WordSumIsSum | src/SDK/mpu_bsp/microblaze_0/libsrc/lwip140_v1_04_a/src/lwip-1.4.0/src/core/ipv4/inet_chksum.c:134-174 | The sum the checksums are defined by is the plain sum of the 16-bit words of the buffer |
| Checksum.WordSumPads | src/SDK/mpu_bsp/microblaze_0/libsrc/lwip140_v1_04_a/src/lwip-1.4.0/src/core/ipv4/inet_chksum.c:134-174 | ... and a buffer of odd length counts as if a zero byte followed |
| Checksum.Example | src/SDK/mpu_bsp/microblaze_0/libsrc/lwip140_v1_04_a/src/lwip-1.4.0/src/core/ipv4/inet_chksum.c:134-174 | The worked example of section 3 of RFC 1071 gives ddf2 |
| Checksum.FieldAccepted | src/SDK/mpu_bsp/microblaze_0/libsrc/lwip140_v1_04_a/src/lwip-1.4.0/src/core/ipv4/inet_chksum.c:271-317 | With v in the checksum field the receiver accepts if and only if v is the checksum, or the other representation of zero |
| Checksum.FoldTwice | src/SDK/mpu_bsp/microblaze_0/include/lwip/inet_chksum.h:52-54 | Two folds of any 32-bit sum give the one number up to 0xffff congruent to it modulo 65535 and zero only for zero |
| Checksum.ReducedUnique | src/SDK/mpu_bsp/microblaze_0/include/lwip/inet_chksum.h:52-54 | That number is unique |
| Checksum.SwapReduced | src/SDK/mpu_bsp/microblaze_0/include/lwip/inet_chksum.h:42-50 | Swapping bytes commutes with reducing |
| Checksum.ByteOrderIndependence | src/SDK/mpu_bsp/microblaze_0/include/lwip/inet_chksum.h:42-54 | For up to 65537 words the sum fits 32 bits, and swapping every word first gives exactly the swapped result, section 2(B) of RFC 1071 |
| Checksum.WordSumConcat | src/SDK/mpu_bsp/microblaze_0/libsrc/lwip140_v1_04_a/src/lwip-1.4.0/src/core/ipv4/inet_chksum.c:408-430 | The sum of a concatenation is the sum of the parts, the second shifted a byte if the first has odd length |
| Addresses.PackingRoundTrip | src/SDK/mpu_bsp/microblaze_0/include/lwip/ip.h:144-154 | The getters give back version, header length and type of service if and only if they are in range, and repacking what they give restores every word |
| Addresses.PackedInNetworkOrder | src/SDK/mpu_bsp/microblaze_0/include/lwip/ip.h:154 | The packed word lies in memory as section 3.1 of RFC 791 orders it |
| Addresses.HtonlInvolution | src/SDK/mpu_bsp/microblaze_0/include/lwip/def.h:117-123 | Converting an address to network order and back gives it back |
| Addresses.AddressInNetworkOrder | src/SDK/mpu_bsp/microblaze_0/include/lwip/ip_addr.h:145-151 | IP4_ADDR is the network order of the address, for all arguments |
| Addresses.AddressInMemory | src/SDK/mpu_bsp/microblaze_0/include/lwip/ip_addr.h:145-151 | In memory IP4_ADDR leaves the four numbers in the order they are written |
| Addresses.BytesReversed | src/SDK/mpu_bsp/microblaze_0/include/lwip/def.h:117-123 | PP_HTONL reverses four bytes and PP_HTONS two |
| Addresses.ClassesPartition | src/SDK/mpu_bsp/microblaze_0/include/lwip/ip_addr.h:108-131 | Every address is in exactly one class, the one its first number says |
| Addresses.MulticastTestsAgree | src/SDK/mpu_bsp/microblaze_0/include/lwip/ip_addr.h:208 | The network-order multicast test is the host-order class D test for every address, and both mean a first number of 224 to 239 |
| MemAlign.AlignSizeExact | src/SDK/mpu_bsp/microblaze_0/include/lwip/mem.h:95-101 | The macro gives a multiple of the alignment, less than one alignment above the size and not below it if and only if the size leaves room in 32 bits; without room it gives zero; for every power of two |
| MemAlign.AlignSizeLeast | src/SDK/mpu_bsp/microblaze_0/include/lwip/mem.h:95-101 | It is the least multiple not below the size |
| MemAlign.AlignSizeIdempotentMonotone | src/SDK/mpu_bsp/microblaze_0/include/lwip/mem.h:95-101 | Rounding twice is rounding once, and a larger size never needs less |
| MemAlign.BlocksAlignedAndDisjoint | src/SDK/mpu_bsp/microblaze_0/include/lwip/mem.h:95-116 | Rounded blocks laid end to end all start aligned and never overlap |
| Bits.MaskClearsLowBits | src/SDK/mpu_bsp/microblaze_0/include/lwip/mem.h:100 | The mask keeps exactly the upper bits |

## Left out

- The arithmetic inside the CNN processor: kept as an arbitrary function, so nothing is claimed about convergence or image quality.
- Cache enable and disable, allocation failure, `free`, volatile and timing behaviour, UART status polling.
- `rand_num_generate`, `rand_num_read`, `l2cache_u_read` and `l2cache_ideal_read`: never called by the functions modelled.
- The contents of `template_init.txt`: the theorems hold for every template table.
- Firmwares.Firmware.HeaderRead: does not model the order of the assignments to width and height; the model reads the size into locals and assigns it when the images are replaced, because the store has no consistent shape in between. No function can observe the difference.
- Firmwares.Firmware.ImageFill: does not model the conversion of a value that is negative or too large for 16 bits, which C leaves undefined; the two values the firmware passes are zero.
- Slots and template numbers outside their tables, and errors of an image without pixels: undefined in C, excluded by preconditions.
- `inet_chksum_pseudo_partial` and the copying checksum `lwip_chksum_copy`: the same loop with a length limit, or followed by a copy.
- Checksum.StandardChksum2: is stated for at most 131072 bytes, what its 32-bit accumulator holds; algorithm 1 for what its `u16_t` length can express.
- The Xilinx drivers, the rest of lwIP, the Matlab programs other than their request sequence, and the VHDL outside the register interface.
