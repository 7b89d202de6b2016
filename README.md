# DAQ client model

A Dafny model of the Python client of the Red Pitaya DAQ instrument
(`projects/daq/client/daq.py`). The model covers three parts:

- **Command codec** (`command_codec.dfy`, module `CommandCodec`). A command
  (code, number, value) becomes the 64-bit word
  `code << 56 | number << 52 | (value & 0xFFFFFFFFFFFFF)`. That word is sent
  as 8 little-endian bytes.
- **Stream layout** (`framing.dfy`, module `Framing`). After a "start daq"
  command, each event arrives as two regions:
  - a sample region of `osc_bytes` bytes, holding 2·N interleaved int16
    samples;
  - a padding region of `cut_bytes` bytes, which the client discards.

  This module also defines the numpy views the client hands back:
  - the batch array `reshape((2, N, amount), order='F').transpose((2, 0, 1))`;
  - the single frame `reshape((2, N), order='F')`.
- **The client** (`daq.dfy`, module `Daq`).
  - Class `Controller` is `rpControll`. It holds the configuration mirror,
    the setters, the plain senders and `acquire_set`. A setter that rejects
    its argument raises and leaves everything untouched. A setter that
    accepts it updates its fields and sends its commands:
    - most setters store the argument as given and send one command;
    - `set_negator` stores 1 or 0 according to the truth of its flag;
    - `set_total_number_of_samples` also sets the two region sizes and a
      fresh scratch buffer, and sends n + 100;
    - `set_generator_spectrum` sends one command per bin, 4096 in all;
    - `set_spectrum` always raises.
  - Class `SingleAcquisition` is the generator returned by `acquire_single`.

The socket is modelled by two fields of `Controller`:

- `sent` lists every command word written so far. Each word goes out as the
  8 bytes `Encode(code, number, value)`.
- `incoming` holds the bytes the instrument has yet to deliver.

One `recv_into` hands over any number of bytes between one and the number
asked for. The receive loops are proved correct for every such split.

A Python exception is modelled as the `Outcome` value the setter returns:
- `ValueError(reason)`, with one `Reason` per distinct message;
- `NotImplementedError`.

`isinstance(x, int)` is modelled by the argument type `Number`:
`Integer(v)` or `NonInteger`.

## Model

| member | source | states |
|---|---|---|
| CommandCodec.Mask52 | projects/daq/client/daq.py:95 | the value field is below 2^52; a value already in [0, 2^52) is kept as is; a negative value down to -2^52 becomes its 52-bit two's complement value + 2^52 |
| CommandCodec.Signed52 | projects/daq/client/daq.py:95 | reading a 52-bit field as two's complement yields a number in [-2^51, 2^51) whose mask is that field again |
| CommandCodec.Word | projects/daq/client/daq.py:95 | the assembled word fits in 61 bits when code < 32 and number < 16, so it fits the 64-bit "<Q" packing |
| CommandCodec.Encode | projects/daq/client/daq.py:95 | one command is exactly 8 bytes on the wire |
| CommandCodec.FromToLittleEndian | projects/daq/client/daq.py:95 | reading back the k little-endian bytes of w gives w modulo 256^k (the struct "<Q" packing loses nothing below 2^64) |
| CommandCodec.ToFromLittleEndian | projects/daq/client/daq.py:95 | every byte string is the little-endian encoding of the number it denotes |
| CommandCodec.WordFields | projects/daq/client/daq.py:95 | the three fields never overlap: splitting the word at bits 56 and 52 gives back code, number and the masked value |
| CommandCodec.DecodeEncode | projects/daq/client/daq.py:92-95 | round trip: decoding the 8 bytes sent for (code, number, value) gives code and number exactly and the value modulo 2^52; a value in [-2^51, 2^51), such as a negative trigger level, reads back as itself in two's complement |
| CommandCodec.EncodeDecode | projects/daq/client/daq.py:95 | reverse round trip: every 8-byte packet whose code is below 32 is the encoding of its own decoded fields |
| Framing.SampleBytesHoldSamples | projects/daq/client/daq.py:159 | a buffer of `osc_bytes` = SampleBytes(n) bytes is read back as exactly 2·n int16 samples, so the sample region of an event holds two channels of n samples |
| Framing.Int16 | projects/daq/client/daq.py:221-222 | the int16 view of two bytes is a number in [-32768, 32768) |
| Framing.Int16Bits | projects/daq/client/daq.py:221-222 | the int16 view is the two's-complement reading of the bytes: taken modulo 2^16 it gives back lo + 256·hi |
| Framing.Samples | projects/daq/client/daq.py:221-222 | the int16 view of a byte buffer has half as many elements as the buffer has bytes |
| Framing.SampleRegions | projects/daq/client/daq.py:226-235 | the bytes kept from `count` events are count·osc bytes long |
| Framing.SampleRegionsAt | projects/daq/client/daq.py:228-230 | byte j of event e's sample region sits at e·osc + j of the kept bytes and comes from stream byte e·(osc + cut) + j |
| Framing.SampleRegionsSnoc | projects/daq/client/daq.py:226-230 | receiving one more event appends exactly that event's sample region to the bytes kept so far |
| Framing.PaddingIsDiscarded | projects/daq/client/daq.py:232-235 | padding never reaches the result: two streams that differ only in padding bytes give the same kept bytes |
| Framing.FortranReshape2 | projects/daq/client/daq.py:243 | a Fortran-order (2, n) reshape has 2 rows of n elements |
| Framing.FortranReshape3 | projects/daq/client/daq.py:223 | a Fortran-order (2, n, amount) reshape has shape (2, n, amount), and every flat index it reads is in range |
| Framing.Transpose201 | projects/daq/client/daq.py:223 | transposing (2, n, amount) by (2, 0, 1) gives shape (amount, 2, n) |
| Framing.EventArray | projects/daq/client/daq.py:221-223 | the batch view of amount·osc bytes has shape (amount, 2, N) |
| Framing.Channel | projects/daq/client/daq.py:243 | one channel of the single-event view has n samples |
| Framing.ChannelAt | projects/daq/client/daq.py:243 | sample s of channel c is the int16 made of bytes 2·(2·s + c) and 2·(2·s + c) + 1 of the view |
| Framing.Frame | projects/daq/client/daq.py:243 | the Fortran-order (2, N) view of an event's osc bytes has two channels of N samples each |
| Framing.FrameAt | projects/daq/client/daq.py:241-243 | the frame has shape (2, N), and frame[c][s] is the int16 at sample index 2·s + c of the frame's bytes: channels interleave sample by sample |
| Framing.FrameIsReshape | projects/daq/client/daq.py:241-243 | the frame is exactly the Fortran-order (2, N) reshape of the int16 view of the buffer |
| Framing.Frames | projects/daq/client/daq.py:239-256 | the frames of the next count events are at most count, one per complete event of the stream |
| Framing.FramesLength | projects/daq/client/daq.py:245-256 | when the stream holds count events of osc + cut bytes, there are exactly count frames |
| Framing.FramesAt | projects/daq/client/daq.py:245-256 | frame i is the frame of the osc bytes at stream offset i·(osc + cut): padding is skipped and never read into a frame |
| Framing.Views | projects/daq/client/daq.py:245-254 | the sample regions of the next count events are at most count |
| Framing.FramesViews | projects/daq/client/daq.py:245-256 | frame i is the frame of sample region i, which is osc bytes long |
| Framing.ViewsAt | projects/daq/client/daq.py:245-254 | sample region i is the osc bytes at stream offset i·(osc + cut) |
| Framing.FramesStep | projects/daq/client/daq.py:245-256 | with an event left, the frames are the frame of the next sample region followed by the frames of the stream after that event |
| Framing.EventArrayViewAt | projects/daq/client/daq.py:221-223 | batch element [e][c][s] is flat int16 number c + 2·s + 2·N·e of the byte view |
| Framing.EventArrayAt | projects/daq/client/daq.py:220-237 | reassembly: result[e][c][s] is the int16 at sample index 2·s + c of event e's sample region, which starts at stream byte e·(osc + cut) |
| Daq.BinValue | projects/daq/client/daq.py:197 | the value `i << 32` OR w for a 32-bit weight w: the bin index is the quotient by 2^32 and the weight the remainder, and for i < 4096 the value fits the 52-bit field unmasked |
| Daq.SpectrumWords | projects/daq/client/daq.py:197-198 | the spectrum sends exactly one word per bin |
| Daq.SpectrumWordAt | projects/daq/client/daq.py:192-198 | word i of a full spectrum decodes to code 28, number 0 and a value field whose high part is i and whose low 32 bits are weight i |
| Daq.BurstsBounds | projects/daq/client/daq.py:240-245 | Bursts(k, s) is ⌈k / s⌉: the fewest bursts of s events that hold k events |
| Daq.BurstsStep | projects/daq/client/daq.py:240-256 | one more pulled event starts a new burst exactly when the events pulled so far fill whole bursts |
| Daq.NegatorUpdate | projects/daq/client/daq.py:110-112 | storing a 0/1 mode for a known input keeps one negator entry per input, each unset or 0/1 |
| Daq.EventAppended | projects/daq/client/daq.py:226-230 | after event i's sample region is written at i·osc, the first i + 1 kept regions are in place |
| Daq.Controller.constructor | projects/daq/client/daq.py:66-84 | a fresh client has every setting unset, both negators unset and nothing sent; it satisfies the configuration invariant |
| Daq.Controller.Command | projects/daq/client/daq.py:92-95 | sending a command appends its word to the sent log and changes nothing else |
| Daq.Controller.SetSampleRate | projects/daq/client/daq.py:99-103 | a rate outside the table raises "Invalid sample rate" with no field changed and nothing sent; otherwise it stores the rate and sends (4, 0, rate); keeps the invariant |
| Daq.Controller.SetNegator | projects/daq/client/daq.py:105-113 | an unknown channel raises with nothing changed; otherwise it stores 1 or 0 for that channel only and sends (5, INPUTS[channel], 1 or 0) |
| Daq.Controller.SetTriggerSource | projects/daq/client/daq.py:115-119 | an unknown channel raises with nothing changed; otherwise it stores the channel and sends (13, INPUTS[channel], 0) |
| Daq.Controller.SetTriggerSlope | projects/daq/client/daq.py:121-125 | an unknown slope raises with nothing changed; otherwise it stores it and sends (14, 0, TRIGGER_SLOPES[slope]) |
| Daq.Controller.SetTriggerMode | projects/daq/client/daq.py:127-131 | an unknown mode raises with nothing changed; otherwise it stores it and sends (15, 0, TRIGGER_MODES[mode]) |
| Daq.Controller.SetTriggerLevel | projects/daq/client/daq.py:133-139 | a non-integer level, or one outside [-4096, 4095], raises its own error with nothing changed; otherwise it stores the level and sends (16, 0, level) |
| Daq.Controller.SetSamplesBeforeTrigger | projects/daq/client/daq.py:141-149 | in order, it raises for a non-integer, for a count outside [0, 8388607], and for a count above a total that is already set (an unset total skips that check), each time with nothing changed; otherwise it stores the count and sends (17, 0, number); pre-trigger ≤ total is kept |
| Daq.Controller.SetTotalNumberOfSamples | projects/daq/client/daq.py:151-165 | in order, it raises for a non-integer, for a total outside [0, 8388607], and for a total below a pre-trigger count that is already set, each time with nothing changed; otherwise it stores n, sets osc = 4n and cut = 400 bytes, allocates a fresh 400-byte scratch buffer and sends (18, 0, n + 100) |
| Daq.Controller.SetGeneratorFallTime | projects/daq/client/daq.py:167-171 | any time is stored and sent as (21, 0, time) |
| Daq.Controller.SetGeneratorRiseTime | projects/daq/client/daq.py:173-177 | any time is stored and sent as (22, 0, time) |
| Daq.Controller.SetGeneratorRate | projects/daq/client/daq.py:179-183 | any rate is stored and sent as (25, 0, rate) |
| Daq.Controller.SetGeneratorDistribution | projects/daq/client/daq.py:185-189 | an unknown distribution raises with nothing changed; otherwise it stores it and sends (26, 0, DISTRIBUTIONS[distribution]) |
| Daq.Controller.SetGeneratorSpectrum | projects/daq/client/daq.py:192-198 | a spectrum that is not 4096 long raises with nothing changed; otherwise it stores it and sends exactly the 4096 words SpectrumWords(spectrum), in ascending bin order |
| Daq.Controller.SetSpectrum | projects/daq/client/daq.py:205-206 | always raises NotImplementedError |
| Daq.Controller.ResetSpectrum | projects/daq/client/daq.py:202-203 | sends (27, 0, 0) and nothing else |
| Daq.Controller.StartGenerator | projects/daq/client/daq.py:208-209 | sends (29, 0, 0) and nothing else |
| Daq.Controller.StopGenerator | projects/daq/client/daq.py:211-212 | sends (30, 0, 0) and nothing else |
| Daq.Controller.ResetOscilloscope | projects/daq/client/daq.py:214-215 | sends (2, 0, 0) and nothing else |
| Daq.Controller.StartOscilloscope | projects/daq/client/daq.py:217-218 | sends (19, 0, 0) and nothing else |
| Daq.Controller.RecvInto | projects/daq/client/daq.py:229-230 | one receive consumes between 1 and nbytes stream bytes; it stores them from the offset on and leaves the rest of the buffer alone |
| Daq.Controller.ReceiveExact | projects/daq/client/daq.py:227-230 | the `bytes_received` loop ends with exactly the next count bytes at buf[offset .. offset + count), however the socket splits them; nothing else in the buffer changes |
| Daq.Controller.ReceiveEvent | projects/daq/client/daq.py:227-235 | one event consumes osc + cut bytes; its sample region lands at buf[offset .. offset + osc); the padding goes to the scratch buffer only |
| Daq.Controller.ReceiveSampleRegions | projects/daq/client/daq.py:226-235 | the event loop consumes amount·(osc + cut) bytes and leaves the view holding exactly SampleRegions of the stream |
| Daq.Controller.AcquireSet | projects/daq/client/daq.py:220-237 | sends (31, 0, amount), consumes amount·(osc + cut) bytes and returns the (amount, 2, N) array of the stream's sample regions (see EventArrayAt, PaddingIsDiscarded) |
| Daq.StartCommandsAdd | projects/daq/client/daq.py:244 | the start commands of a bursts followed by those of b bursts are those of a + b bursts |
| Daq.Controller.AcquireSingle | projects/daq/client/daq.py:239 | creating the generator sends nothing and reads nothing; it has pulled no events, started no bursts and holds no buffer yet |
| Daq.SingleAcquisition.constructor | projects/daq/client/daq.py:239-240 | a new generator has pulled no events, started no bursts and holds no buffer |
| Daq.SingleAcquisition.Next | projects/daq/client/daq.py:239-256 | each pull consumes osc + cut bytes and yields the (2, N) frame of that event's sample region as a value independent of the buffer; it sends (31, 0, set_size) and allocates a fresh buffer exactly when a burst begins, and otherwise reuses the burst's buffer, so after k pulls ⌈k / set_size⌉ start commands have been sent |
| Daq.SingleAcquisition.Take | projects/daq/client/daq.py:239-256 | k pulls in a row consume k·(osc + cut) bytes, yield exactly Frames of the stream, and append to the sent log only start commands (31, 0, set_size) |
| Daq.Controller.AcquireFrames | projects/daq/client/daq.py:239-256 | pulling k frames from a fresh generator sends exactly ⌈k / set_size⌉ start commands (31, 0, set_size), consumes k·(osc + cut) bytes and yields Frames of the stream |

## Left out

- Opening the connection (`connect`) and the socket timeout are left out. Every receive is assumed to find its bytes in `incoming`: the acquisition methods require that enough bytes remain. A closed or timed-out connection is not modelled.
- `testing_setup` and the script at the bottom of the file are left out. They are interactive use of the client, not part of it.
- The `COMMANDS` description table, `ACQUISITION_MODES`, `PORT` and `PLOT_SPECTRUM` are left out. So are the fields `events_per_loop` and `requested_count`, which the client sets but never reads.
- CommandCodec.Word: requires code < 32 and number < 16. Every call in the client meets this, since codes go up to 31 and numbers are 0 or 1. Outside that range the source behaves as follows, and none of it is modelled:
  - a number of 16 or more overlaps the code field;
  - a code from 32 to 255 still packs, into a word of up to 64 bits;
  - a code of 256 or more, or a number of 4096 or more, gives a word of 2^64 or more, and `struct.pack("<Q")` raises `struct.error`;
  - a negative code or number gives a negative word, and `struct.pack("<Q")` raises `struct.error` too.
- Daq.Controller.Command: `int(value)` is modelled on integers only. A float argument, truncated by `int()`, is not modelled, and neither is `bool` being an `int` subclass (`isinstance(True, int)` holds in Python).
- Daq.Controller.SetGeneratorSpectrum: weights are 32-bit unsigned. The numpy `uint64` shift-and-OR with a wider or negative weight is not modelled.
- Daq.SingleAcquisition.Next: requires set_size ≥ 1. With set_size 0 or a negative set_size the inner loop is empty, so the source sends start commands forever without yielding; that loop is not modelled.
- Daq.SingleAcquisition.Next: requires the total number of samples to be set. With it unset, `2*None` raises `TypeError` at daq.py:241 before anything is sent; that error is not modelled. The same holds for Daq.SingleAcquisition.Take and Daq.Controller.AcquireFrames.
- Daq.SingleAcquisition.Next: requires, once a burst has begun, that the total number of samples is the one its buffer was sized for; the same holds for Daq.SingleAcquisition.Take. The source sizes the buffer once per burst (daq.py:241) but reads `osc_bytes` for every event (daq.py:247-249), so changing the total in the middle of a burst is allowed there and is not modelled:
  - a larger total makes `recv_into` raise `ValueError` (buffer too small for the requested bytes);
  - a smaller total yields a frame of the old shape (2, N) whose tail still holds samples of the previous event.
- Daq.Controller.AcquireSet: requires the total number of samples to be set. With it unset, `amount*2*None` raises `TypeError` at daq.py:221 before the (31, 0, amount) command at daq.py:224; that error is not modelled.
- Daq.Controller.AcquireSet: `amount` is a `nat`. A negative amount makes numpy raise `ValueError` for the negative dimension at daq.py:221-223, before the command at daq.py:224 is sent; that error is not modelled.
- Daq.Controller.AcquireSet: requires only the sizes invariant and does not restate the configuration invariant. The configuration fields are outside its `modifies` clause, so they are unchanged. The same holds for Daq.SingleAcquisition.Next and the receive methods.
- Daq.Controller.Command: the sent log records words, not bytes. The bytes on the wire are `Encode` of each word, and CommandCodec.DecodeEncode and CommandCodec.EncodeDecode relate the two.
- If sending the command fails after a setter has stored its field, Python leaves the field changed. The model's `Command` always succeeds, so that case is not modelled.
- Numpy's int16 buffers are modelled through their byte view. Element types, strides and aliasing of `reshaped` with `buffer` are not modelled. Each frame is returned as a value, which matches `reshaped.copy()`. A batch is also returned as a value, so aliasing does not arise there.
